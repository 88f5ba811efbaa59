/**
 * Analysing a fetched batch, collecting the emails the model marked DELETE
 * with the bytes they would free, and asking for them to be trashed once the
 * user confirms.
 */
module Triage {
  import opened Normalizer
  import opened Classifier

  /** One email proposed for deletion. */
  datatype Recommendation = Recommendation(id: string, reason: string, size: nat)

  /** What one run of the analysis produces. */
  datatype Report = Report(results: seq<Analysis>, totalSaved: nat, recommendations: seq<Recommendation>, trashed: seq<string>)

  /** The exact-equality test of the aggregation loop. */
  predicate IsDeletion(a: Analysis)
  {
    a.category == Delete
  }

  function ToRecommendation(a: Analysis): Recommendation
  {
    Recommendation(a.id, a.reason, a.size)
  }

  /** The DELETE-tagged results as recommendations, in order. */
  function DeleteRecommendations(results: seq<Analysis>): (recs: seq<Recommendation>)
    ensures |recs| <= |results|
  {
    if results == [] then []
    else
      var last := results[|results| - 1];
      DeleteRecommendations(results[..|results| - 1]) + (if IsDeletion(last) then [ToRecommendation(last)] else [])
  }

  /** The sum of the sizes of the DELETE-tagged results. */
  function ReclaimableBytes(results: seq<Analysis>): (total: nat)
    ensures total <= BatchBytes(results)
  {
    if results == [] then 0
    else
      var last := results[|results| - 1];
      ReclaimableBytes(results[..|results| - 1]) + (if IsDeletion(last) then last.size else 0)
  }

  /** The sum of the sizes of all results. */
  function BatchBytes(results: seq<Analysis>): nat
  {
    if results == [] then 0 else BatchBytes(results[..|results| - 1]) + results[|results| - 1].size
  }

  /** The positions of the DELETE-tagged results, in increasing order. */
  function DeleteIndices(results: seq<Analysis>): seq<nat>
  {
    if results == [] then []
    else
      var n := |results| - 1;
      DeleteIndices(results[..n]) + (if IsDeletion(results[n]) then [n] else [])
  }

  function SizeSum(recs: seq<Recommendation>): nat
  {
    if recs == [] then 0 else SizeSum(recs[..|recs| - 1]) + recs[|recs| - 1].size
  }

  function Ids(recs: seq<Recommendation>): (ids: seq<string>)
    ensures |ids| == |recs| && forall i :: 0 <= i < |recs| ==> ids[i] == recs[i].id
  {
    seq(|recs|, i requires 0 <= i < |recs| => recs[i].id)
  }

  /**
   * The recommendations are exactly the DELETE-tagged results, in order: the
   * k-th one carries the id, reason and size of the result at the k-th
   * DELETE position, positions increase, and every DELETE result is listed.
   */
  lemma {:induction false} RecommendationsAreDeleteSubsequence(results: seq<Analysis>)
    ensures var idx := DeleteIndices(results);
            var recs := DeleteRecommendations(results);
            && |idx| == |recs|
            && (forall k :: 0 <= k < |idx| ==> idx[k] < |results| && IsDeletion(results[idx[k]]))
            && (forall k :: 0 <= k < |idx| ==> recs[k] == ToRecommendation(results[idx[k]]))
            && (forall k, l :: 0 <= k < l < |idx| ==> idx[k] < idx[l])
            && (forall i :: 0 <= i < |results| && IsDeletion(results[i]) ==> i in idx)
    decreases |results|
  {
    if results != [] {
      var n := |results| - 1;
      var init := results[..n];
      RecommendationsAreDeleteSubsequence(init);
      assert forall i :: 0 <= i < n ==> init[i] == results[i];
    }
  }

  /** Aggregation distributes over concatenation of result lists. */
  lemma {:induction false} AggregateAppend(a: seq<Analysis>, b: seq<Analysis>)
    ensures DeleteRecommendations(a + b) == DeleteRecommendations(a) + DeleteRecommendations(b)
    ensures ReclaimableBytes(a + b) == ReclaimableBytes(a) + ReclaimableBytes(b)
    decreases |b|
  {
    if b == [] {
      assert a + b == a;
    } else {
      var b' := b[..|b| - 1];
      assert (a + b)[..|a + b| - 1] == a + b';
      assert (a + b)[|a + b| - 1] == b[|b| - 1];
      AggregateAppend(a, b');
    }
  }

  /** Results of any other category contribute neither a recommendation nor bytes. */
  lemma {:induction false} OtherCategoriesContributeNothing(results: seq<Analysis>)
    requires forall i :: 0 <= i < |results| ==> !IsDeletion(results[i])
    ensures DeleteRecommendations(results) == [] && ReclaimableBytes(results) == 0
    decreases |results|
  {
    if results != [] {
      OtherCategoriesContributeNothing(results[..|results| - 1]);
    }
  }

  /** The total shown to the user is the sum of the sizes of the recommendations. */
  lemma {:induction false} TotalIsSumOfRecommendations(results: seq<Analysis>)
    ensures ReclaimableBytes(results) == SizeSum(DeleteRecommendations(results))
    decreases |results|
  {
    if results != [] {
      var n := |results| - 1;
      var init := results[..n];
      TotalIsSumOfRecommendations(init);
      var recs := DeleteRecommendations(results);
      if IsDeletion(results[n]) {
        assert recs == DeleteRecommendations(init) + [ToRecommendation(results[n])];
        assert recs[..|recs| - 1] == DeleteRecommendations(init);
      } else {
        assert recs == DeleteRecommendations(init);
      }
    }
  }

  /** The analysis loop: one `analyze_email` call per fetched email, in order. */
  method AnalyzeAll(details: seq<EmailDetail>, responses: seq<string>) returns (results: seq<Analysis>)
    requires |responses| == |details|
    ensures |results| == |details|
    ensures forall i :: 0 <= i < |details| ==> results[i] == AnalyzeEmail(details[i], responses[i])
  {
    results := [];
    for i := 0 to |details|
      invariant |results| == i
      invariant forall j :: 0 <= j < i ==> results[j] == AnalyzeEmail(details[j], responses[j])
    {
      results := results + [AnalyzeEmail(details[i], responses[i])];
    }
  }

  /** The aggregation loop: `total_saved +=` and `delete_recommendations.append`. */
  method Aggregate(results: seq<Analysis>) returns (totalSaved: nat, recs: seq<Recommendation>)
    ensures totalSaved == ReclaimableBytes(results)
    ensures recs == DeleteRecommendations(results)
  {
    totalSaved := 0;
    recs := [];
    for i := 0 to |results|
      invariant totalSaved == ReclaimableBytes(results[..i])
      invariant recs == DeleteRecommendations(results[..i])
    {
      assert results[..i + 1][..i] == results[..i];
      if results[i].category == Delete {
        totalSaved := totalSaved + results[i].size;
        recs := recs + [Recommendation(results[i].id, results[i].reason, results[i].size)];
      }
    }
    assert results[..|results|] == results;
  }

  /** The deletion loop: nothing without confirmation, otherwise one trash request per recommendation, in order. */
  method RequestTrash(confirmed: bool, recs: seq<Recommendation>) returns (trashed: seq<string>)
    ensures !confirmed ==> trashed == []
    ensures confirmed ==> trashed == Ids(recs)
  {
    trashed := [];
    if confirmed {
      for i := 0 to |recs|
        invariant trashed == Ids(recs[..i])
      {
        trashed := trashed + [recs[i].id];
      }
      assert recs[..|recs|] == recs;
    }
  }

  /** `process_emails`: analyse, aggregate, and trash on confirmation. */
  method ProcessEmails(details: seq<EmailDetail>, responses: seq<string>, confirmed: bool) returns (report: Report)
    requires |responses| == |details|
    ensures |report.results| == |details|
    ensures forall i :: 0 <= i < |details| ==> report.results[i] == AnalyzeEmail(details[i], responses[i])
    ensures report.totalSaved == ReclaimableBytes(report.results)
    ensures report.recommendations == DeleteRecommendations(report.results)
    ensures report.trashed == if confirmed then Ids(report.recommendations) else []
  {
    var results := AnalyzeAll(details, responses);
    var totalSaved, recs := Aggregate(results);
    var trashed := RequestTrash(confirmed, recs);
    report := Report(results, totalSaved, recs, trashed);
  }

  /**
   * Only confirmed runs trash anything, and every id trashed is that of a
   * fetched email whose answer was parsed to exactly DELETE.
   */
  lemma OnlyDeleteTaggedAreTrashed(details: seq<EmailDetail>, responses: seq<string>, confirmed: bool, report: Report)
    requires |responses| == |details|
    requires |report.results| == |details|
    requires forall i :: 0 <= i < |details| ==> report.results[i] == AnalyzeEmail(details[i], responses[i])
    requires report.recommendations == DeleteRecommendations(report.results)
    requires report.trashed == if confirmed then Ids(report.recommendations) else []
    ensures report.trashed != [] ==> confirmed
    ensures forall k :: 0 <= k < |report.trashed| ==>
              exists i :: 0 <= i < |details| && details[i].id == report.trashed[k] &&
                          ParseResponse(responses[i]).category == Delete
  {
    RecommendationsAreDeleteSubsequence(report.results);
    var idx := DeleteIndices(report.results);
    forall k | 0 <= k < |report.trashed|
      ensures exists i :: 0 <= i < |details| && details[i].id == report.trashed[k] &&
                          ParseResponse(responses[i]).category == Delete
    {
      assert confirmed && |report.trashed| == |report.recommendations| == |idx|;
      var i := idx[k];
      assert 0 <= i < |details| && IsDeletion(report.results[i]);
      assert report.trashed[k] == report.recommendations[k].id == report.results[i].id;
      assert report.results[i] == AnalyzeEmail(details[i], responses[i]);
      assert ParseResponse(responses[i]).category == report.results[i].category;
      assert details[i].id == report.trashed[k] && ParseResponse(responses[i]).category == Delete;
    }
    assert forall k :: 0 <= k < |report.trashed| ==>
              exists i :: 0 <= i < |details| && details[i].id == report.trashed[k] &&
                          ParseResponse(responses[i]).category == Delete;
    assert report.trashed != [] ==> confirmed;
  }

  /**
   * Three emails of 1000, 2000 and 3000 bytes answered DELETE, KEEP and
   * CRITICAL in the requested format: only the first is recommended, with
   * its reason, and 1000 bytes are reclaimable.
   */
  lemma ThreeEmailScenario(d1: EmailDetail, d2: EmailDetail, d3: EmailDetail, r1: string, r2: string, r3: string)
    requires d1.size == 1000 && d2.size == 2000 && d3.size == 3000
    ensures var results := [AnalyzeEmail(d1, Delete + Separator + r1), AnalyzeEmail(d2, Keep + Separator + r2),
                            AnalyzeEmail(d3, Critical + Separator + r3)];
            && DeleteRecommendations(results) == [Recommendation(d1.id, r1, 1000)]
            && ReclaimableBytes(results) == 1000
  {
    NoSpaceNoEarlierSeparator(Delete);
    SplitRoundTrip(Delete, r1);
    NoSpaceNoEarlierSeparator(Keep);
    SplitRoundTrip(Keep, r2);
    NoSpaceNoEarlierSeparator(Critical);
    SplitRoundTrip(Critical, r3);
    var results := [AnalyzeEmail(d1, Delete + Separator + r1), AnalyzeEmail(d2, Keep + Separator + r2),
                    AnalyzeEmail(d3, Critical + Separator + r3)];
    assert results[0] == Analysis(d1.id, Delete, r1, 1000);
    assert results[1].category == Keep && results[2].category == Critical;
    assert results[..1][..0] == [] && results[..2][..1] == results[..1] && results[..2] == results[..|results| - 1];
    assert DeleteRecommendations(results[..1]) == [Recommendation(d1.id, r1, 1000)];
    assert DeleteRecommendations(results[..2]) == DeleteRecommendations(results[..1]);
    assert ReclaimableBytes(results[..2]) == ReclaimableBytes(results[..1]) == 1000;
  }
}
