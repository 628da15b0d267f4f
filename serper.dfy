/**
 * Person lookup through the Serper web-search API (`search_with_serper`):
 * one search restricted to LinkedIn profile pages, of whose organic results
 * only the first three are read. The first profile link found becomes the
 * person's `linkedin_url`; every non-empty snippet is kept in result order.
 * Any failure of the request, of its HTTP status or of decoding its body
 * becomes an error record instead of an exception.
 */
module SerperSearch {
  import opened Wrappers
  import opened Strings

  /** Appended to every query so that only LinkedIn profile pages are searched. */
  const SiteRestriction: string := " site:linkedin.com/in"

  /** A link is a profile link when it contains this text. */
  const ProfileMarker: string := "linkedin.com/in"

  /** How many organic results are read. */
  const MaxExamined: nat := 3

  /** Start of the error message returned when the search fails. */
  const FailurePrefix: string := "\U{274C} Serper search failed: "

  /** One entry of the response's `organic` list; either key may be missing. */
  datatype OrganicResult = OrganicResult(link: Option<string>, snippet: Option<string>)

  /** The decoded response body; its `organic` key may be missing. */
  datatype SerperResponse = SerperResponse(organic: Option<seq<OrganicResult>>)

  /** The record handed back to the caller: the person found, or the error. */
  datatype PersonInfo =
    | Found(name: string, linkedinUrl: Option<string>, snippets: seq<string>)
    | Failed(error: string)

  /** The text sent to the provider as `q`. */
  function SearchQuery(query: string): (q: string)
    ensures |q| == |query| + |SiteRestriction|
    ensures q[..|query|] == query
    ensures q[|query|..] == SiteRestriction
    ensures Contains(q, ProfileMarker)
  {
    var q := query + SiteRestriction;
    assert SiteRestriction[6..] == ProfileMarker;
    assert q[|query| + 6..|query| + 6 + |ProfileMarker|] == SiteRestriction[6..];
    assert OccursAt(q, ProfileMarker, |query| + 6);
    q
  }

  /** `result.get("link", "")` */
  function LinkOf(r: OrganicResult): string { r.link.GetOr("") }

  /** `result.get("snippet", "")` */
  function SnippetOf(r: OrganicResult): string { r.snippet.GetOr("") }

  predicate IsProfileLink(link: string) { Contains(link, ProfileMarker) }

  /** Python truthiness of the `linkedin_url` entry: None and "" are both false. */
  predicate IsSet(url: Option<string>) { url.Some? && url.value != "" }

  /** `data.get("organic", [])[:3]`: the results that are read. */
  function Examined(data: SerperResponse): (rs: seq<OrganicResult>)
    ensures |rs| <= MaxExamined
    ensures rs <= data.organic.GetOr([])
    ensures |data.organic.GetOr([])| <= MaxExamined ==> rs == data.organic.GetOr([])
    ensures |rs| == if |data.organic.GetOr([])| <= MaxExamined then |data.organic.GetOr([])| else MaxExamined
  {
    var organic := data.organic.GetOr([]);
    if |organic| <= MaxExamined then organic else organic[..MaxExamined]
  }

  /** The link of the first result that links to a profile, if any. */
  function FirstProfileLink(rs: seq<OrganicResult>): Option<string>
  {
    if |rs| == 0 then None
    else if IsProfileLink(LinkOf(rs[0])) then Some(LinkOf(rs[0]))
    else FirstProfileLink(rs[1..])
  }

  /** The non-empty snippets of `rs`, in order, duplicates kept. */
  function NonEmptySnippets(rs: seq<OrganicResult>): seq<string>
  {
    if |rs| == 0 then []
    else if SnippetOf(rs[0]) != "" then [SnippetOf(rs[0])] + NonEmptySnippets(rs[1..])
    else NonEmptySnippets(rs[1..])
  }

  /** What `search_with_serper(query)` returns when the provider answered `outcome`. */
  function PersonInfoOf(query: string, outcome: Outcome<SerperResponse>): PersonInfo
  {
    match outcome
    case Err(e) => Failed(FailurePrefix + e)
    case Ok(data) =>
      var rs := Examined(data);
      Found(query, FirstProfileLink(rs), NonEmptySnippets(rs))
  }

  /**
   * `search_with_serper`: `provider` stands for the HTTP request with its
   * status check and JSON decoding, applied to the query text.
   */
  method SearchWithSerper(query: string, provider: string -> Outcome<SerperResponse>) returns (info: PersonInfo)
    ensures info == PersonInfoOf(query, provider(SearchQuery(query)))
    ensures info.Failed? <==> provider(SearchQuery(query)).Err?
    ensures info.Failed? ==> info.error == FailurePrefix + provider(SearchQuery(query)).msg
    ensures info.Found? ==> info.name == query && |info.snippets| <= MaxExamined
    ensures info.Found? && info.linkedinUrl.Some? ==> IsProfileLink(info.linkedinUrl.value)
    ensures info.Found? ==> forall k :: 0 <= k < |info.snippets| ==> info.snippets[k] != ""
    ensures provider(SearchQuery(query)) == Ok(SerperResponse(None)) ==> info == Found(query, None, [])
  {
    var outcome := provider(SearchQuery(query));
    match outcome
    case Err(e) =>
      info := Failed(FailurePrefix + e);
    case Ok(data) =>
      var organic := data.organic.GetOr([]);
      var results := if |organic| <= MaxExamined then organic else organic[..MaxExamined];
      var linkedinUrl: Option<string> := None;
      var snippets: seq<string> := [];
      for i := 0 to |results|
        invariant linkedinUrl == FirstProfileLink(results[..i])
        invariant snippets == NonEmptySnippets(results[..i])
        invariant linkedinUrl.Some? ==> IsProfileLink(linkedinUrl.value)
        invariant |snippets| <= i
        invariant forall k :: 0 <= k < |snippets| ==> snippets[k] != ""
      {
        var link := LinkOf(results[i]);
        var snippet := SnippetOf(results[i]);
        FirstProfileLinkSnoc(results[..i], results[i]);
        NonEmptySnippetsAppend(results[..i], [results[i]]);
        assert results[..i + 1] == results[..i] + [results[i]];
        if linkedinUrl.Some? {
          EmptyContainsNothing(ProfileMarker);
        }
        if IsProfileLink(link) && !IsSet(linkedinUrl) {
          linkedinUrl := Some(link);
        }
        if snippet != "" {
          snippets := snippets + [snippet];
        }
      }
      assert results[..|results|] == results;
      info := Found(query, linkedinUrl, snippets);
  }

  /** Reading one more result changes the profile link only while none has been found. */
  lemma {:induction false} FirstProfileLinkSnoc(rs: seq<OrganicResult>, r: OrganicResult)
    ensures FirstProfileLink(rs + [r]) ==
      if FirstProfileLink(rs).Some? then FirstProfileLink(rs)
      else if IsProfileLink(LinkOf(r)) then Some(LinkOf(r))
      else None
  {
    if |rs| == 0 {
      assert rs + [r] == [r];
    } else {
      assert (rs + [r])[0] == rs[0];
      assert (rs + [r])[1..] == rs[1..] + [r];
      FirstProfileLinkSnoc(rs[1..], r);
    }
  }

  /** Snippets are collected result by result: the snippets of two runs of results concatenate. */
  lemma {:induction false} NonEmptySnippetsAppend(a: seq<OrganicResult>, b: seq<OrganicResult>)
    ensures NonEmptySnippets(a + b) == NonEmptySnippets(a) + NonEmptySnippets(b)
  {
    if |a| == 0 {
      assert a + b == b;
    } else {
      assert (a + b)[0] == a[0];
      assert (a + b)[1..] == a[1..] + b;
      NonEmptySnippetsAppend(a[1..], b);
    }
  }

  /** Result `i` is a profile result and no earlier one is. */
  predicate EarliestProfile(rs: seq<OrganicResult>, i: int) {
    0 <= i < |rs| && IsProfileLink(LinkOf(rs[i])) &&
    forall j :: 0 <= j < i ==> !IsProfileLink(LinkOf(rs[j]))
  }

  /**
   * First match wins: the profile link is absent exactly when no result links
   * to a profile, and otherwise it is the link of the earliest such result.
   */
  lemma {:induction false} FirstProfileLinkIsEarliest(rs: seq<OrganicResult>)
    ensures FirstProfileLink(rs).None? <==> forall i :: 0 <= i < |rs| ==> !IsProfileLink(LinkOf(rs[i]))
    ensures forall i :: EarliestProfile(rs, i) ==> FirstProfileLink(rs) == Some(LinkOf(rs[i]))
    ensures FirstProfileLink(rs).Some? ==> exists i :: EarliestProfile(rs, i)
  {
    if |rs| > 0 {
      FirstProfileLinkIsEarliest(rs[1..]);
      if IsProfileLink(LinkOf(rs[0])) {
        assert EarliestProfile(rs, 0);
        forall i | EarliestProfile(rs, i) ensures i == 0 { }
      } else {
        forall i | EarliestProfile(rs, i) ensures EarliestProfile(rs[1..], i - 1) {
          forall j | 0 <= j < i - 1 ensures !IsProfileLink(LinkOf(rs[1..][j])) {
            assert rs[1..][j] == rs[j + 1];
          }
        }
        if FirstProfileLink(rs).Some? {
          var i :| EarliestProfile(rs[1..], i);
          assert EarliestProfile(rs, i + 1);
        }
        forall i | 0 <= i < |rs[1..]| ensures rs[1..][i] == rs[i + 1] { }
      }
    }
  }

  /** Strictly increasing positions, all below `n`. */
  predicate Positions(idx: seq<nat>, n: nat) {
    (forall k :: 0 <= k < |idx| ==> idx[k] < n) &&
    (forall k, l :: 0 <= k < l < |idx| ==> idx[k] < idx[l])
  }

  /** The positions of the results whose snippet is non-empty, counted from `offset`. */
  function SnippetPositions(rs: seq<OrganicResult>, offset: nat): seq<nat>
  {
    if |rs| == 0 then []
    else if SnippetOf(rs[0]) != "" then [offset] + SnippetPositions(rs[1..], offset + 1)
    else SnippetPositions(rs[1..], offset + 1)
  }

  lemma {:induction false} SnippetPositionsShape(rs: seq<OrganicResult>, offset: nat)
    ensures var idx := SnippetPositions(rs, offset);
      |idx| == |NonEmptySnippets(rs)| &&
      (forall k :: 0 <= k < |idx| ==> offset <= idx[k] < offset + |rs|) &&
      (forall k, l :: 0 <= k < l < |idx| ==> idx[k] < idx[l])
  {
    if |rs| > 0 {
      SnippetPositionsShape(rs[1..], offset + 1);
    }
  }

  lemma {:induction false} SnippetPositionsSelect(rs: seq<OrganicResult>, offset: nat)
    ensures |SnippetPositions(rs, offset)| == |NonEmptySnippets(rs)|
    ensures forall k :: 0 <= k < |SnippetPositions(rs, offset)| ==>
      offset <= SnippetPositions(rs, offset)[k] < offset + |rs| &&
      NonEmptySnippets(rs)[k] == SnippetOf(rs[SnippetPositions(rs, offset)[k] - offset])
  {
    SnippetPositionsShape(rs, offset);
    if |rs| > 0 {
      SnippetPositionsSelect(rs[1..], offset + 1);
      var idx, rest := SnippetPositions(rs, offset), SnippetPositions(rs[1..], offset + 1);
      forall k | 0 <= k < |idx|
        ensures NonEmptySnippets(rs)[k] == SnippetOf(rs[idx[k] - offset])
      {
        if SnippetOf(rs[0]) != "" && k == 0 {
        } else {
          var k' := if SnippetOf(rs[0]) != "" then k - 1 else k;
          assert idx[k] == rest[k'];
          assert NonEmptySnippets(rs)[k] == NonEmptySnippets(rs[1..])[k'];
          assert rs[1..][rest[k'] - (offset + 1)] == rs[idx[k] - offset];
        }
      }
    }
  }

  lemma {:induction false} SnippetPositionsCover(rs: seq<OrganicResult>, offset: nat)
    ensures forall i :: 0 <= i < |rs| && SnippetOf(rs[i]) != "" ==> offset + i in SnippetPositions(rs, offset)
  {
    if |rs| > 0 {
      SnippetPositionsCover(rs[1..], offset + 1);
      forall i | 1 <= i < |rs| && SnippetOf(rs[i]) != "" ensures offset + i in SnippetPositions(rs, offset) {
        assert rs[1..][i - 1] == rs[i];
      }
    }
  }

  /**
   * `snippets` is exactly the subsequence of non-empty snippets: there are
   * strictly increasing positions, one per collected snippet, naming the
   * result it came from, and every result with a non-empty snippet is among
   * them. Every collected snippet is non-empty.
   */
  lemma NonEmptySnippetsIsSubsequence(rs: seq<OrganicResult>)
    ensures forall k :: 0 <= k < |NonEmptySnippets(rs)| ==> NonEmptySnippets(rs)[k] != ""
    ensures exists idx: seq<nat> ::
      |idx| == |NonEmptySnippets(rs)| && Positions(idx, |rs|) &&
      (forall k :: 0 <= k < |idx| ==> NonEmptySnippets(rs)[k] == SnippetOf(rs[idx[k]])) &&
      (forall i :: 0 <= i < |rs| && SnippetOf(rs[i]) != "" ==> i in idx)
  {
    SnippetPositionsShape(rs, 0);
    SnippetPositionsSelect(rs, 0);
    SnippetPositionsCover(rs, 0);
    var idx := SnippetPositions(rs, 0);
    assert Positions(idx, |rs|);
    forall k | 0 <= k < |NonEmptySnippets(rs)| ensures NonEmptySnippets(rs)[k] != "" {
      assert NonEmptySnippets(rs)[k] == SnippetOf(rs[idx[k]]);
    }
  }

  /**
   * A missing `link` is read as "", and an empty link never links to a
   * profile: such a result leaves the profile link as it was. A missing or
   * empty `snippet` adds nothing to the snippets. Each holds whatever the
   * other field of the result is.
   */
  lemma MissingFieldsContributeNothing(rs: seq<OrganicResult>, r: OrganicResult)
    ensures r.link.None? || r.link == Some("") ==> FirstProfileLink(rs + [r]) == FirstProfileLink(rs)
    ensures r.snippet.None? || r.snippet == Some("") ==> NonEmptySnippets(rs + [r]) == NonEmptySnippets(rs)
  {
    FirstProfileLinkSnoc(rs, r);
    EmptyContainsNothing(ProfileMarker);
    NonEmptySnippetsAppend(rs, [r]);
    FirstProfileLinkIsEarliest(rs);
  }

  /** Organic results after the third never influence the record. */
  lemma LaterResultsIgnored(query: string, rs: seq<OrganicResult>, later: seq<OrganicResult>)
    requires |rs| >= MaxExamined
    ensures PersonInfoOf(query, Ok(SerperResponse(Some(rs + later)))) ==
            PersonInfoOf(query, Ok(SerperResponse(Some(rs))))
  {
    assert Examined(SerperResponse(Some(rs + later))) == (rs + later)[..MaxExamined];
    assert (rs + later)[..MaxExamined] == rs[..MaxExamined];
    assert Examined(SerperResponse(Some(rs))) == rs[..MaxExamined];
  }
}
