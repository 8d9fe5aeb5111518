/** The asynchronous map over a list, joined by the `after` counter. */
module AsyncMap {
  import opened JsText

  /** How the continuation was called: with an error, with all results, or with nothing for an empty list. */
  datatype Call<E, R> = Failed(error: E) | Finished(results: seq<Option<R>>) | Empty

  /** One asynchronous conversion reporting back: its index in the list, an error if any, and its result. */
  datatype Completion<E, R> = Completion(index: nat, error: Option<E>, message: R)

  /** `muted` says that the callback has been replaced by the one that does nothing. */
  datatype State<E, R> = State(
    results: seq<Option<R>>, count: int, bail: bool, muted: bool, calls: seq<Call<E, R>>, tooMany: bool)

  function Start<E, R>(length: nat): State<E, R> {
    State(seq(length, _ => None), length, false, false, if length == 0 then [Empty] else [], false)
  }

  function After<E, R>(s: State<E, R>, error: Option<E>): State<E, R> {
    if s.count <= 0 then s.(tooMany := true)
    else
      var s' := s.(count := s.count - 1);
      if error.Some? then
        s'.(bail := true, muted := true, calls := if s.muted then s.calls else s.calls + [Failed(error.value)])
      else if s'.count == 0 && !s.bail then s'.(calls := s.calls + [Finished(s.results)])
      else s'
  }

  function Complete<E, R>(s: State<E, R>, c: Completion<E, R>): State<E, R> {
    After(if c.index < |s.results| then s.(results := s.results[c.index := Some(c.message)]) else s, c.error)
  }

  function Run<E, R>(s: State<E, R>, order: seq<Completion<E, R>>): State<E, R> {
    if order == [] then s else Complete(Run(s, order[..|order| - 1]), order[|order| - 1])
  }

  class Map<E, R> {
    var results: array<Option<R>>
    var count: int
    var bail: bool
    var muted: bool
    ghost var calls: seq<Call<E, R>>
    ghost var tooMany: bool

    ghost function View(): State<E, R>
      reads this, results
    {
      State(results[..], count, bail, muted, calls, tooMany)
    }

    constructor (length: nat)
      ensures View() == Start(length) && fresh(results)
    {
      results := new Option<R>[length](_ => None);
      count, bail, muted, tooMany := length, false, false, false;
      calls := if length == 0 then [Empty] else [];
    }

    /** The callback handed to one conversion. */
    method OnComplete(c: Completion<E, R>)
      modifies this, results
      ensures results == old(results)
      ensures View() == Complete(old(View()), c)
    {
      if c.index < results.Length {
        results[c.index] := Some(c.message);
      }
      if count <= 0 {
        tooMany := true;
        return;
      }
      count := count - 1;
      if c.error.Some? {
        bail := true;
        if !muted {
          calls := calls + [Failed(c.error.value)];
        }
        muted := true;
      } else if count == 0 && !bail {
        calls := calls + [Finished(results[..])];
      }
    }
  }

  // ---------- properties ----------

  /** Each index below `length` reports exactly once. */
  ghost predicate IsPermutation<E, R>(order: seq<Completion<E, R>>, length: nat) {
    && |order| == length
    && (forall i :: 0 <= i < |order| ==> order[i].index < length)
    && (forall i, j :: 0 <= i < j < |order| ==> order[i].index != order[j].index)
    && (forall k :: 0 <= k < length ==> Reports(order, k))
  }

  ghost predicate Reports<E, R>(order: seq<Completion<E, R>>, k: nat) {
    exists i :: 0 <= i < |order| && order[i].index == k
  }

  function FirstError<E, R>(order: seq<Completion<E, R>>): Option<E> {
    if order == [] then None
    else
      var before := FirstError(order[..|order| - 1]);
      if before.Some? then before else order[|order| - 1].error
  }

  /** The state after the first completions of an order without repetition. */
  ghost predicate Tracks<E, R>(s: State<E, R>, order: seq<Completion<E, R>>, length: nat) {
    && |s.results| == length && s.count == length - |order| && !s.tooMany
    && (forall i :: 0 <= i < |order| ==>
          order[i].index < length && s.results[order[i].index] == Some(order[i].message))
    && (s.bail <==> FirstError(order).Some?) && (s.muted <==> s.bail)
    && (match FirstError(order)
        case Some(e) => s.calls == [Failed(e)]
        case None => |order| < length ==> s.calls == [])
  }

  /** One more completion, of an index that has not reported. */
  lemma CompleteTracks<E, R>(s: State<E, R>, order: seq<Completion<E, R>>, c: Completion<E, R>, length: nat)
    requires Tracks(s, order, length) && |order| < length && c.index < length
    requires forall i :: 0 <= i < |order| ==> order[i].index != c.index
    ensures Tracks(Complete(s, c), order + [c], length)
    ensures |order| + 1 == length && FirstError(order + [c]).None? ==>
              Complete(s, c).calls == [Finished(Complete(s, c).results)]
  {
    var all := order + [c];
    FirstErrorAppend(order, c);
    hide FirstError;
    assert forall i :: 0 <= i < |order| ==> all[i] == order[i];
  }

  lemma FirstErrorAppend<E, R>(order: seq<Completion<E, R>>, c: Completion<E, R>)
    ensures FirstError(order + [c]) == if FirstError(order).Some? then FirstError(order) else c.error
  {
    assert (order + [c])[..|order|] == order;
  }

  lemma StartTracks<E, R>(length: nat)
    requires 0 < length
    ensures Tracks<E, R>(Start(length), [], length)
  {
  }

  /** An empty list calls the continuation at once, with nothing; no other list calls anything before a completion. */
  lemma EmptyAtOnce<E, R>(length: nat)
    ensures Start<E, R>(length).calls == if length == 0 then [Empty] else []
    ensures Start<E, R>(0).results == []
  {
  }

  lemma {:induction false} RunTracks<E, R>(order: seq<Completion<E, R>>, length: nat)
    requires 0 < length && |order| <= length && forall i :: 0 <= i < |order| ==> order[i].index < length
    requires forall i, j :: 0 <= i < j < |order| ==> order[i].index != order[j].index
    ensures Tracks(Run(Start(length), order), order, length)
    ensures |order| == length && FirstError(order).None? ==>
              Run(Start(length), order).calls == [Finished(Run(Start(length), order).results)]
  {
    hide Complete, Tracks, FirstError, Start;
    StartTracks<E, R>(length);
    if order != [] {
      var k := |order| - 1;
      RunTracks(order[..k], length);
      assert order == order[..k] + [order[k]];
      CompleteTracks(Run<E, R>(Start(length), order[..k]), order[..k], order[k], length);
    }
  }

  /**
   * Whatever the order of completion, the continuation is called exactly once: with the first error reported, or,
   * when none is, with every result at its input index.
   */
  lemma CalledOnce<E, R>(order: seq<Completion<E, R>>, length: nat)
    requires 0 < length && IsPermutation(order, length)
    ensures var s := Run<E, R>(Start(length), order);
            match FirstError(order)
            case Some(e) => s.calls == [Failed(e)]
            case None =>
              && s.calls == [Finished(s.results)] && |s.results| == length
              && (forall k :: 0 <= k < length ==> s.results[k].Some?)
              && (forall i :: 0 <= i < |order| ==> s.results[order[i].index] == Some(order[i].message))
  {
    RunTracks(order, length);
    var s := Run<E, R>(Start(length), order);
    forall k | 0 <= k < length ensures s.results[k].Some? {
      assert Reports(order, k);
      var i :| 0 <= i < |order| && order[i].index == k;
    }
  }

  /** Before the last completion nothing is reported unless there was an error. */
  lemma NotBeforeLast<E, R>(order: seq<Completion<E, R>>, length: nat, n: nat)
    requires IsPermutation(order, length) && n < length && FirstError(order[..n]).None?
    ensures Run<E, R>(Start(length), order[..n]).calls == []
  {
    RunTracks(order[..n], length);
  }

  /** A completion too many is refused and calls nothing. */
  lemma OneTooMany<E, R>(order: seq<Completion<E, R>>, length: nat, extra: Completion<E, R>)
    requires 0 < length && IsPermutation(order, length)
    ensures var s := Run<E, R>(Start(length), order);
            Complete(s, extra).tooMany && Complete(s, extra).calls == s.calls
  {
    RunTracks(order, length);
  }
}
