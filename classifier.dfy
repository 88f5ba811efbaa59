/**
 * Parsing the language model's free-text answer into a category and a
 * reason. The model's answer is an input: the call itself is not modelled.
 */
module Classifier {
  import opened Results
  import opened Text
  import opened Normalizer

  /** The separator the prompt asks for: "CATEGORY | Reason". */
  const Separator: string := " | "
  const Critical: string := "CRITICAL"
  const Keep: string := "KEEP"
  const Delete: string := "DELETE"

  datatype Verdict = Verdict(category: string, reason: string)

  /** The result of analysing one email. */
  datatype Analysis = Analysis(id: string, category: string, reason: string, size: nat)

  /**
   * The keyword scan used when the answer has no separator: CRITICAL before
   * KEEP before DELETE, and KEEP when none of them occurs.
   */
  function ScanCategory(response: string): (c: string)
    ensures c == Critical || c == Keep || c == Delete
    ensures c == Critical <==> Contains(response, Critical)
    ensures c == Delete <==> Contains(response, Delete) && !Contains(response, Critical) && !Contains(response, Keep)
    ensures c == Keep <==> !Contains(response, Critical) && (Contains(response, Keep) || !Contains(response, Delete))
  {
    if Contains(response, Critical) then Critical
    else if Contains(response, Keep) then Keep
    else if Contains(response, Delete) then Delete
    else Keep
  }

  /**
   * The answer split at the first separator when there is one; otherwise the
   * scanned category with the whole answer as the reason.
   */
  function ParseResponse(response: string): (v: Verdict)
    ensures !Contains(response, Separator) ==> v == Verdict(ScanCategory(response), response)
  {
    match Find(response, Separator)
    case Some(i) => Verdict(response[..i], response[i + |Separator|..])
    case None => Verdict(ScanCategory(response), response)
  }

  /**
   * With a separator present, the category is the text before its first
   * occurrence and the reason all the text after it: category, separator and
   * reason put back together give the answer, and no separator starts
   * inside the category (not even one running on into the split separator).
   */
  lemma SplitAtFirstSeparator(response: string)
    requires Contains(response, Separator)
    ensures var v := ParseResponse(response);
            v.category + Separator + v.reason == response && !Contains(v.category + " |", Separator)
  {
    var i := Find(response, Separator).value;
    var v := ParseResponse(response);
    assert v.category == response[..i];
    assert response[..i] + Separator + response[i + |Separator|..] == response;
    if Contains(v.category, Separator) {
      var j := Find(v.category, Separator).value;
      OccursInPrefix(response, Separator, i, j);
    }
    SplitRoundTrip(v.category, v.reason);
  }

  /**
   * Joining a category and a reason with the separator and parsing the
   * result gives them back exactly when the category, followed by " |",
   * holds no separator: an earlier separator would otherwise be found first.
   */
  lemma {:induction false} SplitRoundTrip(category: string, reason: string)
    ensures ParseResponse(category + Separator + reason) == Verdict(category, reason)
            <==> !Contains(category + " |", Separator)
  {
    var response := category + Separator + reason;
    var n := |category|;
    assert OccursAt(response, Separator, n) by {
      assert response[n..n + |Separator|] == Separator;
    }
    ContainsIff(response, Separator);
    var i := Find(response, Separator).value;
    assert i <= n;
    assert response[..n + 2] == category + " |";
    if Contains(category + " |", Separator) {
      var j := Find(category + " |", Separator).value;
      OccursInPrefix(response, Separator, n + 2, j);
      assert i <= j < n;
      assert |ParseResponse(response).category| < n;
    } else {
      forall j: nat | j < n ensures !OccursAt(response, Separator, j) {
        NoEarlierSeparator(category, reason, j);
      }
      assert response[n + |Separator|..] == reason;
    }
  }

  /** `analyze_email`: the id and size are copied, category and reason come from the parsed answer. */
  function AnalyzeEmail(detail: EmailDetail, response: string): (a: Analysis)
    ensures a.id == detail.id && a.size == detail.size
    ensures Verdict(a.category, a.reason) == ParseResponse(response)
  {
    var v := ParseResponse(response);
    Analysis(detail.id, v.category, v.reason, detail.size)
  }

  /**
   * Without a separator the category is one of the three literals, and it
   * is DELETE only if DELETE occurs and neither CRITICAL nor KEEP does.
   */
  lemma FallbackIsFailSafe(detail: EmailDetail, response: string)
    requires !Contains(response, Separator)
    ensures var a := AnalyzeEmail(detail, response);
            && (a.category == Critical || a.category == Keep || a.category == Delete)
            && a.reason == response
            && (a.category == Delete ==> Contains(response, Delete) && !Contains(response, Critical) && !Contains(response, Keep))
  {
  }

  /** An occurrence of the separator that starts inside the category lies within the category followed by " |". */
  lemma NoEarlierSeparator(category: string, reason: string, j: nat)
    requires j < |category| && !Contains(category + " |", Separator)
    ensures !OccursAt(category + Separator + reason, Separator, j)
  {
    var response := category + Separator + reason;
    assert !OccursAt(category + " |", Separator, j);
    assert response[j..j + |Separator|] == (category + " |")[j..j + |Separator|];
  }

  /** A category without spaces never holds an earlier separator. */
  lemma NoSpaceNoEarlierSeparator(category: string)
    requires ' ' !in category
    ensures !Contains(category + " |", Separator)
  {
    var s := category + " |";
    forall j: nat ensures !OccursAt(s, Separator, j) {
      if j < |category| && j + |Separator| <= |s| {
        assert s[j..j + |Separator|][0] == category[j] != Separator[0];
      }
    }
    ContainsIff(s, Separator);
  }

  /** With a separator the category is whatever precedes it: it need not be one of the three literals. */
  lemma SplitCategoryIsUnchecked(reason: string)
    ensures ParseResponse("Maybe" + Separator + reason).category == "Maybe"
  {
    NoSpaceNoEarlierSeparator("Maybe");
    SplitRoundTrip("Maybe", reason);
  }

  /** A word without spaces followed by one space never holds an earlier separator. */
  lemma TrailingSpaceNoEarlierSeparator(word: string)
    requires ' ' !in word
    ensures !Contains(word + " " + " |", Separator)
  {
    var s := word + " " + " |";
    forall j: nat ensures !OccursAt(s, Separator, j) {
      if j < |word| && j + |Separator| <= |s| {
        assert s[j..j + |Separator|][0] == word[j] != Separator[0];
      } else if j == |word| {
        assert s[j..j + |Separator|][1] == ' ' != Separator[1];
      }
    }
    ContainsIff(s, Separator);
  }

  /**
   * The text before the separator is taken verbatim: neither surrounding
   * white space nor decoration is removed, so neither answer counts as DELETE.
   */
  lemma SplitCategoryIsNotTrimmed(reason: string)
    ensures ParseResponse("DELETE " + Separator + reason).category == "DELETE " != Delete
    ensures ParseResponse("**DELETE**" + Separator + reason).category == "**DELETE**" != Delete
  {
    TrailingSpaceNoEarlierSeparator(Delete);
    assert Delete + " " == "DELETE ";
    SplitRoundTrip("DELETE ", reason);
    NoSpaceNoEarlierSeparator("**DELETE**");
    SplitRoundTrip("**DELETE**", reason);
  }
}
