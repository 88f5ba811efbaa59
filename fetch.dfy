/**
 * The fetch loop: list the most recent message ids (at most ten), get each
 * message and normalise it, in listing order. An exception raised for any
 * message ends the whole fetch.
 */
module Fetch {
  import opened Results
  import opened Normalizer

  /** The `maxResults` of the list request (cost control). */
  const MaxResults: nat := 10

  /**
   * The mailbox as the Gmail service presents it: message ids, most recent
   * first, and the full message stored under each id.
   */
  datatype Mailbox = Mailbox(recent: seq<string>, messages: map<string, Message>)

  /** Why fetching stops: a listed id cannot be got, or a body does not decode. */
  datatype FetchError = MessageNotFound(id: string) | UndecodableBody(id: string)

  /** The ids the list request returns: the first `maxResults` of the mailbox, or all of them. */
  function ListMessageIds(mailbox: Mailbox, maxResults: nat): (ids: seq<string>)
    ensures |ids| <= maxResults && |ids| <= |mailbox.recent|
    ensures ids == mailbox.recent[..|ids|]
    ensures |ids| == maxResults || ids == mailbox.recent
  {
    if |mailbox.recent| <= maxResults then mailbox.recent else mailbox.recent[..maxResults]
  }

  /** Get and normalise one listed message. */
  function FetchOne(mailbox: Mailbox, id: string, decode: Decoder): (r: Result<EmailDetail, FetchError>)
    ensures r == Err(MessageNotFound(id)) <==> id !in mailbox.messages
    ensures r == Err(UndecodableBody(id)) <==> id in mailbox.messages && Normalize(id, mailbox.messages[id], decode).None?
    ensures r.Ok? ==> id in mailbox.messages && Normalize(id, mailbox.messages[id], decode) == Some(r.value)
  {
    if id !in mailbox.messages then Err(MessageNotFound(id))
    else
      match Normalize(id, mailbox.messages[id], decode)
      case None => Err(UndecodableBody(id))
      case Some(detail) => Ok(detail)
  }

  /** The values of the outcomes in order, or the first error: a loop that an exception ends. */
  function Collect<T, E>(rs: seq<Result<T, E>>): (r: Result<seq<T>, E>)
    ensures r.Ok? ==> |r.value| == |rs|
    ensures r.Err? ==> Err(r.error) in rs
  {
    if rs == [] then Ok([])
    else
      match Collect(rs[..|rs| - 1])
      case Err(e) => Err(e)
      case Ok(values) =>
        match rs[|rs| - 1]
        case Err(e) => Err(e)
        case Ok(v) => Ok(values + [v])
  }

  /** The outcome of each listed id, in listing order. */
  function Outcomes(mailbox: Mailbox, ids: seq<string>, decode: Decoder): (rs: seq<Result<EmailDetail, FetchError>>)
    ensures |rs| == |ids| && forall i :: 0 <= i < |ids| ==> rs[i] == FetchOne(mailbox, ids[i], decode)
  {
    seq(|ids|, i requires 0 <= i < |ids| => FetchOne(mailbox, ids[i], decode))
  }

  /** The records of `ids`, in order; the first failure aborts the whole batch. */
  function FetchAll(mailbox: Mailbox, ids: seq<string>, decode: Decoder): (r: Result<seq<EmailDetail>, FetchError>)
    ensures r.Ok? ==> |r.value| == |ids|
    ensures r.Err? ==> r.error.id in ids
  {
    Collect(Outcomes(mailbox, ids, decode))
  }

  /** Collecting succeeds exactly when every outcome is a success. */
  lemma {:induction false} CollectOkIff<T, E>(rs: seq<Result<T, E>>)
    ensures Collect(rs).Ok? <==> forall i :: 0 <= i < |rs| ==> rs[i].Ok?
    decreases |rs|
  {
    if rs != [] {
      var init := rs[..|rs| - 1];
      CollectOkIff(init);
      if Collect(rs).Ok? {
        forall i | 0 <= i < |rs| ensures rs[i].Ok? {
          if i < |init| {
            assert init[i] == rs[i];
          }
        }
      } else if Collect(init).Err? {
        var i :| 0 <= i < |init| && !init[i].Ok?;
        assert init[i] == rs[i];
      }
    }
  }

  /** A successful collection holds the value of every outcome, in order. */
  lemma {:induction false} CollectOk<T, E>(rs: seq<Result<T, E>>)
    requires Collect(rs).Ok?
    ensures |Collect(rs).value| == |rs|
    ensures forall i :: 0 <= i < |rs| ==> rs[i] == Ok(Collect(rs).value[i])
    decreases |rs|
  {
    if rs != [] {
      var n := |rs| - 1;
      var init := rs[..n];
      CollectOk(init);
      var values := Collect(init).value;
      var all := values + [rs[n].value];
      assert Collect(rs) == Ok(all);
      forall i | 0 <= i < |rs| ensures rs[i] == Ok(all[i]) {
        if i < n {
          assert all[i] == values[i] && init[i] == rs[i];
        }
      }
    }
  }

  /** A failed collection reports the error of the first outcome that failed. */
  lemma {:induction false} CollectErr<T, E>(rs: seq<Result<T, E>>)
    requires Collect(rs).Err?
    ensures exists k :: 0 <= k < |rs| && rs[k] == Err(Collect(rs).error) && forall j :: 0 <= j < k ==> rs[j].Ok?
    decreases |rs|
  {
    var n := |rs| - 1;
    var init := rs[..n];
    assert forall i :: 0 <= i < n ==> init[i] == rs[i];
    match Collect(init)
    case Err(_) =>
      CollectErr(init);
      var k :| 0 <= k < n && init[k] == Err(Collect(init).error) && forall j :: 0 <= j < k ==> init[j].Ok?;
      assert rs[k] == init[k];
    case Ok(_) =>
      CollectOkIff(init);
      assert rs[n] == Err(Collect(rs).error);
  }

  /** Once a prefix fails, the whole collection fails with the same error. */
  lemma {:induction false} CollectErrorPersists<T, E>(rs: seq<Result<T, E>>, k: nat)
    requires k <= |rs| && Collect(rs[..k]).Err?
    ensures Collect(rs) == Collect(rs[..k])
    decreases |rs| - k
  {
    if k < |rs| {
      var init := rs[..|rs| - 1];
      assert init[..k] == rs[..k];
      CollectErrorPersists(init, k);
    } else {
      assert rs[..k] == rs;
    }
  }

  /** The fetch loop, appending one record per listed message. */
  method FetchEmails(mailbox: Mailbox, decode: Decoder) returns (r: Result<seq<EmailDetail>, FetchError>)
    ensures r == FetchAll(mailbox, ListMessageIds(mailbox, MaxResults), decode)
  {
    var ids := ListMessageIds(mailbox, MaxResults);
    ghost var rs := Outcomes(mailbox, ids, decode);
    var details: seq<EmailDetail> := [];
    for i := 0 to |ids|
      invariant Collect(rs[..i]) == Ok(details)
    {
      assert rs[..i + 1][..i] == rs[..i];
      var id := ids[i];
      if id !in mailbox.messages {
        r := Err(MessageNotFound(id));
        assert Collect(rs[..i + 1]) == r;
        CollectErrorPersists(rs, i + 1);
        return;
      }
      var detail := NormalizeMessage(id, mailbox.messages[id], decode);
      if detail.None? {
        r := Err(UndecodableBody(id));
        assert Collect(rs[..i + 1]) == r;
        CollectErrorPersists(rs, i + 1);
        return;
      }
      details := details + [detail.value];
    }
    assert rs[..|ids|] == rs;
    r := Ok(details);
  }

  /**
   * A batch succeeds exactly when every listed message can be got and
   * decoded; it then holds one record per listed id, in listing order.
   */
  lemma FetchAllOk(mailbox: Mailbox, ids: seq<string>, decode: Decoder)
    ensures FetchAll(mailbox, ids, decode).Ok? <==> forall i :: 0 <= i < |ids| ==> FetchOne(mailbox, ids[i], decode).Ok?
    ensures FetchAll(mailbox, ids, decode).Ok? ==>
              |FetchAll(mailbox, ids, decode).value| == |ids| &&
              forall i :: 0 <= i < |ids| ==> FetchOne(mailbox, ids[i], decode) == Ok(FetchAll(mailbox, ids, decode).value[i])
  {
    var rs := Outcomes(mailbox, ids, decode);
    CollectOkIff(rs);
    if Collect(rs).Ok? {
      CollectOk(rs);
    }
  }

  /** A failed batch reports the error of the first listed message that failed; all before it succeeded. */
  lemma FetchAllErr(mailbox: Mailbox, ids: seq<string>, decode: Decoder)
    requires FetchAll(mailbox, ids, decode).Err?
    ensures exists k :: 0 <= k < |ids| && FetchOne(mailbox, ids[k], decode) == Err(FetchAll(mailbox, ids, decode).error) &&
                        forall j :: 0 <= j < k ==> FetchOne(mailbox, ids[j], decode).Ok?
  {
    var rs := Outcomes(mailbox, ids, decode);
    CollectErr(rs);
    var k :| 0 <= k < |rs| && rs[k] == Err(Collect(rs).error) && forall j :: 0 <= j < k ==> rs[j].Ok?;
    assert FetchOne(mailbox, ids[k], decode) == Err(FetchAll(mailbox, ids, decode).error);
  }

  /**
   * What the fetch returns on success: at most ten records, one per listed
   * id and in listing order, each carrying its message's size estimate and a
   * body of at most 503 characters.
   */
  lemma FetchEmailsBatch(mailbox: Mailbox, decode: Decoder)
    ensures var r := FetchAll(mailbox, ListMessageIds(mailbox, MaxResults), decode);
            r.Ok? ==>
              && |r.value| <= MaxResults
              && |r.value| == (if |mailbox.recent| <= MaxResults then |mailbox.recent| else MaxResults)
              && forall i :: 0 <= i < |r.value| ==>
                   && r.value[i].id == mailbox.recent[i]
                   && mailbox.recent[i] in mailbox.messages
                   && r.value[i].size == mailbox.messages[mailbox.recent[i]].sizeEstimate
                   && |r.value[i].content| <= MaxContentLength + |TruncationMarker|
  {
    var ids := ListMessageIds(mailbox, MaxResults);
    FetchAllOk(mailbox, ids, decode);
    assert forall i :: 0 <= i < |ids| ==> ids[i] == mailbox.recent[i];
  }
}
