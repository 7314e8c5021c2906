/** `reduction`: the request for the reduced band values of the processed
    images, its retry policy, the date-by-date fallback and the renaming of
    reduced bands with the reducer's suffix. The remote computation is an oracle. */
module Reduction {
  import opened Wrappers
  import opened Registry
  import opened Demand

  /** The band values of one image date. */
  type Bands = map<string, Cell>
  /** A retrieved result: band values per image date. */
  type Fragment = map<Date, Bands>

  const TimeoutMessage: string := "Computation timed out."
  const TooLargeMessage: string := "Output of image computation is too large"

  datatype Failure = TimedOut | TooLarge | OtherError

  /** `str(e)[:40]`. */
  function Prefix40(msg: string): (p: string)
    ensures |p| <= 40 && |p| <= |msg| && p == msg[..|p|]
    ensures |msg| >= 40 ==> |p| == 40
  {
    if |msg| <= 40 then msg else msg[..40]
  }

  /** Lines 1588-1629: how an error message is read. */
  function Classify(msg: string): (f: Failure)
    ensures f == TimedOut <==> msg == TimeoutMessage
    ensures f == TooLarge <==> |msg| >= 40 && msg[..40] == TooLargeMessage
  {
    assert |TooLargeMessage| == 40;
    if msg == TimeoutMessage then TimedOut
    else if Prefix40(msg) == TooLargeMessage then TooLarge
    else OtherError
  }

  /** What the retry policy does, in order: a request with the current
      `tileScale`, a pause, or one request of the date-by-date fallback. */
  datatype Event = Attempt(round: nat, tileScale: nat) | Sleep(seconds: nat) | DateRequest(date: Date, tileScale: nat)

  /** The remote reduction of the whole collection, by round and tileScale. */
  type Service = (nat, nat) -> Result<Fragment, string>
  /** The remote reduction of one image date, None when it fails. */
  type DateService = (Date, nat) -> Option<Fragment>

  /** The date-by-date fallback over the first n local dates: whether any
      request succeeded, and the combined result. */
  function FallbackAcc(dates: seq<Date>, perDate: DateService, tileScale: nat, n: nat): (bool, Fragment)
    requires n <= |dates|
  {
    if n == 0 then (false, map[]) else
      var (ok, acc) := FallbackAcc(dates, perDate, tileScale, n - 1);
      match perDate(dates[n - 1], tileScale)
      case Some(f) => (true, acc + f)
      case None => (ok, acc)
  }

  function FallbackLog(dates: seq<Date>, tileScale: nat): (log: seq<Event>)
    ensures |log| == |dates|
    ensures forall i :: 0 <= i < |dates| ==> log[i] == DateRequest(dates[i], tileScale)
  {
    seq(|dates|, i requires 0 <= i < |dates| => DateRequest(dates[i], tileScale))
  }

  function Fallback(dates: seq<Date>, perDate: DateService, tileScale: nat): Option<Fragment>
  {
    var (ok, acc) := FallbackAcc(dates, perDate, tileScale, |dates|);
    if ok then Some(acc) else None
  }

  /** The outcome of one round: the retrieval ends, with its result, or the
      next round starts with the updated time-out count and tileScale. */
  datatype Step =
    | Done(result: Option<Fragment>, events: seq<Event>)
    | Continue(events: seq<Event>, timeouts: nat, tileScale: nat)

  /** Round c (lines 1563-1632): stop at a success; on the second time-out
      with more than one local date, fall back to requesting date by date;
      double `tileScale` after "too large" and wait 30 seconds after any other
      error, except in the last round. */
  function RoundStep(service: Service, localDates: seq<Date>, perDate: DateService,
                     c: nat, timeouts: nat, tileScale: nat): Step
  {
    var here := [Attempt(c, tileScale)];
    match service(c, tileScale)
    case Ok(f) => Done(Some(f), here)
    case Err(msg) =>
      match Classify(msg)
      case TimedOut =>
        if timeouts + 1 >= 2 && |localDates| > 1 then
          Done(Fallback(localDates, perDate, tileScale), here + FallbackLog(localDates, tileScale))
        else Continue(here, timeouts + 1, tileScale)
      case TooLarge => Continue(here, timeouts, if c < 2 then tileScale * 2 else tileScale)
      case OtherError => Continue(here + (if c < 2 then [Sleep(30)] else []), timeouts, tileScale)
  }

  /** What a retrieval returns and the events it went through. */
  datatype Run = Run(result: Option<Fragment>, log: seq<Event>)

  /** The three rounds from round c on. */
  function Retry(service: Service, localDates: seq<Date>, perDate: DateService,
                 c: nat, timeouts: nat, tileScale: nat): (r: Run)
    decreases 3 - c
  {
    if c >= 3 then Run(None, []) else
      match RoundStep(service, localDates, perDate, c, timeouts, tileScale)
      case Done(result, events) => Run(result, events)
      case Continue(events, t, ts) =>
        var rest := Retry(service, localDates, perDate, c + 1, t, ts);
        Run(rest.result, events + rest.log)
  }

  /** Lines 1599-1623: one request per local date, combining those that succeed. */
  method OneByOne(localDates: seq<Date>, perDate: DateService, tileScale: nat)
      returns (successful: bool, result: Fragment, events: seq<Event>)
    ensures (successful, result) == FallbackAcc(localDates, perDate, tileScale, |localDates|)
    ensures events == FallbackLog(localDates, tileScale)
  {
    successful, result, events := false, map[], [];
    for i := 0 to |localDates|
      invariant (successful, result) == FallbackAcc(localDates, perDate, tileScale, i)
      invariant events == FallbackLog(localDates, tileScale)[..i]
    {
      events := events + [DateRequest(localDates[i], tileScale)];
      match perDate(localDates[i], tileScale)
      case Some(f) => {
        result := result + f;
        successful := true;
      }
      case None => {}
    }
  }

  /** The body of one round of the request loop (lines 1577-1632). */
  method Round(service: Service, localDates: seq<Date>, perDate: DateService,
               c: nat, timeouts: nat, tileScale: nat)
      returns (stop: bool, result: Option<Fragment>, events: seq<Event>, timeouts': nat, tileScale': nat)
    ensures stop ==> RoundStep(service, localDates, perDate, c, timeouts, tileScale) == Done(result, events)
    ensures !stop ==> RoundStep(service, localDates, perDate, c, timeouts, tileScale) == Continue(events, timeouts', tileScale')
  {
    stop, result, events, timeouts', tileScale' := false, None, [Attempt(c, tileScale)], timeouts, tileScale;
    match service(c, tileScale)
    case Ok(f) => {
      stop, result := true, Some(f);
    }
    case Err(msg) => {
      if msg == TimeoutMessage {
        timeouts' := timeouts + 1;
        if timeouts' >= 2 && |localDates| > 1 {
          var successful, acc, requests := OneByOne(localDates, perDate, tileScale);
          stop, events := true, events + requests;
          result := if successful then Some(acc) else None;
        }
      } else if Prefix40(msg) == TooLargeMessage {
        assert |TooLargeMessage| == 40;
        assert Classify(msg) == TooLarge;
        if c < 2 {
          tileScale' := tileScale * 2;
        }
      } else {
        assert Classify(msg) == OtherError;
        if c < 2 {
          events := events + [Sleep(30)];
        }
      }
    }
  }

  /** Lines 1559-1635: the request loop. */
  method RetrieveWithRetries(service: Service, localDates: seq<Date>, perDate: DateService)
      returns (result: Option<Fragment>, log: seq<Event>)
    ensures Run(result, log) == Retry(service, localDates, perDate, 0, 0, 1)
  {
    ghost var total := Retry(service, localDates, perDate, 0, 0, 1);
    var timeoutcounts: nat := 0;
    var tileScale: nat := 1;
    result, log := None, [];
    ghost var rest := total;
    var c := 0;
    while c < 3
      invariant c <= 3 && rest == Retry(service, localDates, perDate, c, timeoutcounts, tileScale)
      invariant log + rest.log == total.log && rest.result == total.result
    {
      ghost var t0, ts0 := timeoutcounts, tileScale;
      var stop, r, events;
      stop, r, events, timeoutcounts, tileScale := Round(service, localDates, perDate, c, timeoutcounts, tileScale);
      RetryStep(service, localDates, perDate, c, t0, ts0);
      if stop {
        log := log + events;
        result := r;
        return;
      }
      ghost var next := Retry(service, localDates, perDate, c + 1, timeoutcounts, tileScale);
      AppendAssoc(log, events, next.log);
      log, rest := log + events, next;
      c := c + 1;
    }
    assert rest == Run(None, []);
    assert log + [] == log;
  }

  lemma {:induction false} AppendAssoc<T>(a: seq<T>, b: seq<T>, c: seq<T>)
    ensures (a + b) + c == a + (b + c)
  {
  }

  /** Round `c` of the retries either ends them or leads to round `c + 1`. */
  lemma {:induction false} RetryStep(service: Service, localDates: seq<Date>, perDate: DateService,
                                     c: nat, timeouts: nat, tileScale: nat)
    requires c < 3
    ensures var st := RoundStep(service, localDates, perDate, c, timeouts, tileScale);
      st.Done? ==> Retry(service, localDates, perDate, c, timeouts, tileScale) == Run(st.result, st.events)
    ensures var st := RoundStep(service, localDates, perDate, c, timeouts, tileScale);
      st.Continue? ==>
        var rest := Retry(service, localDates, perDate, c + 1, st.timeouts, st.tileScale);
        Retry(service, localDates, perDate, c, timeouts, tileScale) == Run(rest.result, st.events + rest.log)
  {
  }

  function AttemptCount(log: seq<Event>): nat
  {
    if log == [] then 0 else AttemptCount(log[..|log| - 1]) + (if log[|log| - 1].Attempt? then 1 else 0)
  }

  lemma {:induction false} AttemptCountConcat(a: seq<Event>, b: seq<Event>)
    ensures AttemptCount(a + b) == AttemptCount(a) + AttemptCount(b)
    decreases |b|
  {
    if b == [] {
      assert a + b == a;
    } else {
      assert (a + b)[..|a + b| - 1] == a + b[..|b| - 1];
      AttemptCountConcat(a, b[..|b| - 1]);
    }
  }

  lemma {:induction false} NoAttemptsInFallback(dates: seq<Date>, tileScale: nat, n: nat)
    requires n <= |dates|
    ensures AttemptCount(FallbackLog(dates, tileScale)[..n]) == 0
  {
    if n > 0 {
      var log := FallbackLog(dates, tileScale);
      assert log[..n][..n - 1] == log[..n - 1];
      NoAttemptsInFallback(dates, tileScale, n - 1);
    }
  }

  /** Each round requests the collection exactly once. */
  lemma {:induction false} OneAttemptPerRound(service: Service, localDates: seq<Date>, perDate: DateService,
                                              c: nat, timeouts: nat, tileScale: nat)
    ensures AttemptCount(RoundStep(service, localDates, perDate, c, timeouts, tileScale).events) == 1
  {
    var here := [Attempt(c, tileScale)];
    var events := RoundStep(service, localDates, perDate, c, timeouts, tileScale).events;
    assert AttemptCount(here) == 1 by { assert here[..0] == []; }
    if events != here {
      if events == here + [Sleep(30)] {
        AttemptCountConcat(here, [Sleep(30)]);
        assert [Sleep(30)][..0] == [];
      } else {
        var fb := FallbackLog(localDates, tileScale);
        assert events == here + fb;
        AttemptCountConcat(here, fb);
        NoAttemptsInFallback(localDates, tileScale, |localDates|);
        assert fb[..|localDates|] == fb;
      }
    }
  }

  /** The collection is requested at most three times, whatever the errors. */
  lemma {:induction false} AtMostThreeAttempts(service: Service, localDates: seq<Date>, perDate: DateService,
                                              c: nat, timeouts: nat, tileScale: nat)
    requires c <= 3
    ensures AttemptCount(Retry(service, localDates, perDate, c, timeouts, tileScale).log) <= 3 - c
    decreases 3 - c
  {
    if c < 3 {
      OneAttemptPerRound(service, localDates, perDate, c, timeouts, tileScale);
      match RoundStep(service, localDates, perDate, c, timeouts, tileScale)
      case Done(result, events) =>
      case Continue(events, t, ts) =>
        AtMostThreeAttempts(service, localDates, perDate, c + 1, t, ts);
        AttemptCountConcat(events, Retry(service, localDates, perDate, c + 1, t, ts).log);
    }
  }

  /** A successful round ends the retrieval with its result. */
  lemma {:induction false} FirstSuccessReturned(service: Service, localDates: seq<Date>, perDate: DateService,
                             c: nat, timeouts: nat, tileScale: nat, f: Fragment)
    requires c < 3 && service(c, tileScale) == Ok(f)
    ensures Retry(service, localDates, perDate, c, timeouts, tileScale) == Run(Some(f), [Attempt(c, tileScale)])
  {
  }

  /** When every request is too large, tileScale doubles between the three rounds and nothing is returned. */
  lemma {:induction false} TooLargeEveryRound(service: Service, localDates: seq<Date>, perDate: DateService)
    requires forall r: nat, t: nat :: service(r, t).Err? && Classify(service(r, t).error) == TooLarge
    ensures Retry(service, localDates, perDate, 0, 0, 1) == Run(None, [Attempt(0, 1), Attempt(1, 2), Attempt(2, 4)])
  {
    assert service(0, 1).Err? && Classify(service(0, 1).error) == TooLarge;
    assert service(1, 2).Err? && Classify(service(1, 2).error) == TooLarge;
    assert service(2, 4).Err? && Classify(service(2, 4).error) == TooLarge;
    assert RoundStep(service, localDates, perDate, 2, 0, 4) == Continue([Attempt(2, 4)], 0, 4);
    assert Retry(service, localDates, perDate, 2, 0, 4) == Run(None, [Attempt(2, 4)]);
    assert RoundStep(service, localDates, perDate, 1, 0, 2) == Continue([Attempt(1, 2)], 0, 4);
    assert Retry(service, localDates, perDate, 1, 0, 2) == Run(None, [Attempt(1, 2), Attempt(2, 4)]);
    assert RoundStep(service, localDates, perDate, 0, 0, 1) == Continue([Attempt(0, 1)], 0, 2);
  }

  /** Any other error is followed by a 30-second pause, except in the last round. */
  lemma {:induction false} OtherErrorsWait(service: Service, localDates: seq<Date>, perDate: DateService)
    requires forall r: nat, t: nat :: service(r, t).Err? && Classify(service(r, t).error) == OtherError
    ensures Retry(service, localDates, perDate, 0, 0, 1) ==
      Run(None, [Attempt(0, 1), Sleep(30), Attempt(1, 1), Sleep(30), Attempt(2, 1)])
  {
    assert service(0, 1).Err? && Classify(service(0, 1).error) == OtherError;
    assert service(1, 1).Err? && Classify(service(1, 1).error) == OtherError;
    assert service(2, 1).Err? && Classify(service(2, 1).error) == OtherError;
    assert RoundStep(service, localDates, perDate, 2, 0, 1) == Continue([Attempt(2, 1)], 0, 1);
    assert Retry(service, localDates, perDate, 2, 0, 1) == Run(None, [Attempt(2, 1)]);
    assert RoundStep(service, localDates, perDate, 1, 0, 1) == Continue([Attempt(1, 1), Sleep(30)], 0, 1);
    assert Retry(service, localDates, perDate, 1, 0, 1) == Run(None, [Attempt(1, 1), Sleep(30), Attempt(2, 1)]);
    assert RoundStep(service, localDates, perDate, 0, 0, 1) == Continue([Attempt(0, 1), Sleep(30)], 0, 1);
  }

  /** A time-out in round c: the fallback on the second one when there is more than one local date. */
  lemma {:induction false} TimeoutStep(service: Service, localDates: seq<Date>, perDate: DateService, c: nat, timeouts: nat, tileScale: nat)
    requires service(c, tileScale) == Err(TimeoutMessage)
    ensures RoundStep(service, localDates, perDate, c, timeouts, tileScale) ==
      if timeouts + 1 >= 2 && |localDates| > 1
      then Done(Fallback(localDates, perDate, tileScale), [Attempt(c, tileScale)] + FallbackLog(localDates, tileScale))
      else Continue([Attempt(c, tileScale)], timeouts + 1, tileScale)
  {
    assert Classify(TimeoutMessage) == TimedOut;
  }

  /** Any other error in round c: a pause before the next round, if there is one. */
  lemma {:induction false} OtherErrorStep(service: Service, localDates: seq<Date>, perDate: DateService, c: nat, timeouts: nat, tileScale: nat)
    requires service(c, tileScale).Err? && Classify(service(c, tileScale).error) == OtherError
    ensures RoundStep(service, localDates, perDate, c, timeouts, tileScale) ==
      Continue([Attempt(c, tileScale)] + (if c < 2 then [Sleep(30)] else []), timeouts, tileScale)
  {
  }

  /** A round that does not end the retrieval puts its events before those of the next rounds. */
  lemma {:induction false} ContinueStep(service: Service, localDates: seq<Date>, perDate: DateService, c: nat, timeouts: nat, tileScale: nat,
                     events: seq<Event>, t: nat, ts: nat)
    requires c < 3 && RoundStep(service, localDates, perDate, c, timeouts, tileScale) == Continue(events, t, ts)
    ensures Retry(service, localDates, perDate, c, timeouts, tileScale) ==
      Run(Retry(service, localDates, perDate, c + 1, t, ts).result, events + Retry(service, localDates, perDate, c + 1, t, ts).log)
  {
  }

  /** The second time-out switches to one request per local date when there is more than one. */
  lemma {:induction false} SecondTimeoutFallsBack(service: Service, localDates: seq<Date>, perDate: DateService)
    requires service(0, 1) == Err(TimeoutMessage) && service(1, 1) == Err(TimeoutMessage)
    requires |localDates| > 1
    ensures Retry(service, localDates, perDate, 0, 0, 1) ==
      Run(Fallback(localDates, perDate, 1), [Attempt(0, 1), Attempt(1, 1)] + FallbackLog(localDates, 1))
  {
    var fb := FallbackLog(localDates, 1);
    TimeoutStep(service, localDates, perDate, 0, 0, 1);
    TimeoutStep(service, localDates, perDate, 1, 1, 1);
    ContinueStep(service, localDates, perDate, 0, 0, 1, [Attempt(0, 1)], 1, 1);
    assert [Attempt(0, 1)] + ([Attempt(1, 1)] + fb) == [Attempt(0, 1), Attempt(1, 1)] + fb;
  }

  /** Time-outs are counted in total: a time-out, another error and a second
      time-out still switch to the date-by-date requests. */
  lemma {:induction false} SeparatedTimeoutsFallBack(service: Service, localDates: seq<Date>, perDate: DateService)
    requires service(0, 1) == Err(TimeoutMessage) && service(1, 1).Err? && Classify(service(1, 1).error) == OtherError
    requires service(2, 1) == Err(TimeoutMessage) && |localDates| > 1
    ensures Retry(service, localDates, perDate, 0, 0, 1) ==
      Run(Fallback(localDates, perDate, 1), [Attempt(0, 1), Attempt(1, 1), Sleep(30), Attempt(2, 1)] + FallbackLog(localDates, 1))
  {
    var fb := FallbackLog(localDates, 1);
    TimeoutStep(service, localDates, perDate, 2, 1, 1);
    assert Retry(service, localDates, perDate, 2, 1, 1) == Run(Fallback(localDates, perDate, 1), [Attempt(2, 1)] + fb);
    OtherErrorStep(service, localDates, perDate, 1, 1, 1);
    ContinueStep(service, localDates, perDate, 1, 1, 1, [Attempt(1, 1), Sleep(30)], 1, 1);
    TimeoutStep(service, localDates, perDate, 0, 0, 1);
    ContinueStep(service, localDates, perDate, 0, 0, 1, [Attempt(0, 1)], 1, 1);
    assert [Attempt(0, 1)] + ([Attempt(1, 1), Sleep(30)] + ([Attempt(2, 1)] + fb)) ==
      [Attempt(0, 1), Attempt(1, 1), Sleep(30), Attempt(2, 1)] + fb;
  }

  /** With at most one local date, time-outs only use up the three rounds. */
  lemma {:induction false} TimeoutsWithoutFallback(service: Service, localDates: seq<Date>, perDate: DateService)
    requires forall r: nat, t: nat :: service(r, t) == Err(TimeoutMessage)
    requires |localDates| <= 1
    ensures Retry(service, localDates, perDate, 0, 0, 1) == Run(None, [Attempt(0, 1), Attempt(1, 1), Attempt(2, 1)])
  {
    assert service(0, 1) == Err(TimeoutMessage) && service(1, 1) == Err(TimeoutMessage) && service(2, 1) == Err(TimeoutMessage);
    assert Classify(TimeoutMessage) == TimedOut;
    assert RoundStep(service, localDates, perDate, 2, 2, 1) == Continue([Attempt(2, 1)], 3, 1);
    assert Retry(service, localDates, perDate, 2, 2, 1) == Run(None, [Attempt(2, 1)]);
    assert RoundStep(service, localDates, perDate, 1, 1, 1) == Continue([Attempt(1, 1)], 2, 1);
    assert Retry(service, localDates, perDate, 1, 1, 1) == Run(None, [Attempt(1, 1), Attempt(2, 1)]);
    assert RoundStep(service, localDates, perDate, 0, 0, 1) == Continue([Attempt(0, 1)], 1, 1);
  }

  /** The fallback returns a result exactly when one of its date requests
      succeeds, and that result holds exactly the dates of the successful requests. */
  lemma {:induction false} FallbackExact(dates: seq<Date>, perDate: DateService, tileScale: nat, n: nat)
    requires n <= |dates|
    ensures FallbackAcc(dates, perDate, tileScale, n).0 <==>
      exists i :: 0 <= i < n && perDate(dates[i], tileScale).Some?
    ensures forall d :: d in FallbackAcc(dates, perDate, tileScale, n).1 <==>
      exists i :: 0 <= i < n && perDate(dates[i], tileScale).Some? && d in perDate(dates[i], tileScale).value
  {
    if n > 0 {
      FallbackExact(dates, perDate, tileScale, n - 1);
    }
  }

  /** A returned result is one the service or the fallback delivered: the policy invents nothing. */
  lemma {:induction false} ResultComesFromService(service: Service, localDates: seq<Date>, perDate: DateService,
                                                 c: nat, timeouts: nat, tileScale: nat)
    requires Retry(service, localDates, perDate, c, timeouts, tileScale).result.Some?
    ensures var f := Retry(service, localDates, perDate, c, timeouts, tileScale).result.value;
      exists r: nat, t: nat :: c <= r < 3 && (service(r, t) == Ok(f) || Fallback(localDates, perDate, t) == Some(f))
    decreases 3 - c
  {
    var f := Retry(service, localDates, perDate, c, timeouts, tileScale).result.value;
    match RoundStep(service, localDates, perDate, c, timeouts, tileScale)
    case Done(result, events) =>
      assert service(c, tileScale) == Ok(f) || Fallback(localDates, perDate, tileScale) == Some(f);
    case Continue(events, t, ts) =>
      ResultComesFromService(service, localDates, perDate, c + 1, t, ts);
  }

  // ------------------------------------------------------ suffixed band names

  /** `band + "_" + sufix`. */
  function Tagged(band: string, suffix: string): (t: string)
    ensures |t| > |band|
  {
    band + "_" + suffix
  }

  lemma {:induction false} TaggedInjective(a: string, b: string, suffix: string)
    ensures Tagged(a, suffix) == Tagged(b, suffix) ==> a == b
  {
    if Tagged(a, suffix) == Tagged(b, suffix) {
      assert |a| == |b|;
      assert a == Tagged(a, suffix)[..|a|];
      assert b == Tagged(b, suffix)[..|b|];
    }
  }

  /** No reduced band, once suffixed, lands on a name already in use: then the
      order in which the dictionary is walked does not matter. */
  predicate ClashFree(bands: Bands, reduced: set<string>, suffix: string)
  {
    forall k :: k in bands && k in reduced ==> Tagged(k, suffix) !in bands
  }

  /** `out` is `bands` with the reduced bands among `done` renamed `band_suffix`:
      the others keep their name and value, each renamed band keeps its value
      under the new name only, and nothing else is present. */
  predicate IsSuffixed(out: Bands, bands: Bands, reduced: set<string>, suffix: string, done: set<string>)
  {
    (forall x :: x in bands && !(x in reduced && x in done) ==> x in out && out[x] == bands[x]) &&
    (forall k :: k in bands && k in reduced && k in done ==>
       k !in out && Tagged(k, suffix) in out && out[Tagged(k, suffix)] == bands[k]) &&
    (forall x :: x in out ==>
       (x in bands && !(x in reduced && x in done)) ||
       exists k :: k in bands && k in reduced && k in done && x == Tagged(k, suffix))
  }

  /** Renaming band k2 extends the renaming to one more band. */
  lemma {:induction false} SuffixStep(out: Bands, bands: Bands, reduced: set<string>, suffix: string, done: set<string>, k2: string)
    requires ClashFree(bands, reduced, suffix) && IsSuffixed(out, bands, reduced, suffix, done)
    requires k2 in bands && k2 !in done
    ensures k2 in out
    ensures k2 in reduced ==>
      IsSuffixed((out - {k2})[Tagged(k2, suffix) := out[k2]], bands, reduced, suffix, done + {k2})
    ensures k2 !in reduced ==> IsSuffixed(out, bands, reduced, suffix, done + {k2})
  {
    if k2 in reduced {
      var t := Tagged(k2, suffix);
      var out' := (out - {k2})[t := out[k2]];
      var done' := done + {k2};
      assert t !in bands;
      forall x | x in bands && !(x in reduced && x in done') ensures x in out' && out'[x] == bands[x] {
        assert x != k2 && x != t;
      }
      forall k | k in bands && k in reduced && k in done'
        ensures k !in out' && Tagged(k, suffix) in out' && out'[Tagged(k, suffix)] == bands[k]
      {
        assert Tagged(k, suffix) !in bands;
        if k != k2 {
          TaggedInjective(k, k2, suffix);
          assert Tagged(k, suffix) != k2;
        }
      }
      forall x | x in out'
        ensures (x in bands && !(x in reduced && x in done')) ||
          exists k :: k in bands && k in reduced && k in done' && x == Tagged(k, suffix)
      {
        if x != t {
          assert x in out && x != k2;
        }
      }
    }
  }

  /** Lines 1641-1644 for one date: each reduced band is popped and stored again as `band_suffix`. */
  method SuffixBands(bands: Bands, reduced: set<string>, suffix: string) returns (out: Bands)
    ensures ClashFree(bands, reduced, suffix) ==> IsSuffixed(out, bands, reduced, suffix, bands.Keys)
  {
    out := bands;
    var todo := bands.Keys;
    ghost var done: set<string> := {};
    while todo != {}
      invariant todo + done == bands.Keys && todo !! done
      invariant ClashFree(bands, reduced, suffix) ==> IsSuffixed(out, bands, reduced, suffix, done)
      invariant forall k :: k in todo ==> k in out
      decreases |todo|
    {
      var k2 :| k2 in todo;
      MoveOne(todo, done, bands.Keys, k2);
      if ClashFree(bands, reduced, suffix) {
        SuffixStep(out, bands, reduced, suffix, done, k2);
      }
      if k2 in reduced {
        var v := out[k2];
        var out' := (out - {k2})[Tagged(k2, suffix) := v];
        assert forall k :: k in todo - {k2} ==> k in out' by {
          forall k | k in todo - {k2} ensures k in out' { }
        }
        out := out';
      }
      todo := todo - {k2};
      done := done + {k2};
    }
  }

  /** Moving one element from the work list to the finished set keeps them a partition of `all`. */
  lemma {:induction false} MoveOne<T>(todo: set<T>, done: set<T>, all: set<T>, x: T)
    requires todo + done == all && todo !! done && x in todo
    ensures (todo - {x}) + (done + {x}) == all && (todo - {x}) !! (done + {x})
  {
    forall y | y in all ensures y in (todo - {x}) + (done + {x}) {
      if y != x {
        assert y in todo || y in done;
      }
    }
  }

  lemma {:induction false} EmptyIfNoDate(s: set<Date>)
    ensures (forall d :: d !in s) ==> s == {}
  {
    if forall d :: d !in s {
      assert forall d :: d in s <==> d in {};
    }
  }

  lemma {:induction false} NonEmptyHasDate(s: set<Date>)
    requires s != {}
    ensures exists d :: d in s
  {
    EmptyIfNoDate(s);
  }

  /** Lines 1641-1644: the renaming applied to every date of the result. */
  method SuffixFragment(frag: Fragment, reduced: set<string>, suffix: string) returns (out: Fragment)
    ensures out.Keys == frag.Keys
    ensures forall d :: d in frag && ClashFree(frag[d], reduced, suffix) ==>
      IsSuffixed(out[d], frag[d], reduced, suffix, frag[d].Keys)
  {
    out := frag;
    var todo: set<Date> := frag.Keys;
    ghost var done: set<Date> := {};
    while todo != {}
      invariant out.Keys == frag.Keys && todo + done == frag.Keys && todo !! done
      invariant forall d :: d in todo ==> out[d] == frag[d]
      invariant forall d :: d in done && ClashFree(frag[d], reduced, suffix) ==>
        IsSuffixed(out[d], frag[d], reduced, suffix, frag[d].Keys)
      decreases |todo|
    {
      NonEmptyHasDate(todo);
      var k1 :| k1 in todo;
      var renamed := SuffixBands(out[k1], reduced, suffix);
      MoveOne(todo, done, frag.Keys, k1);
      out := out[k1 := renamed];
      todo := todo - {k1};
      done := done + {k1};
    }
  }

  datatype ReduceOutcome =
    | NoResult                // `return` without a value
    | Retrieved(values: Fragment)
    | ServerSideParams        // reducer 0: the parameter dictionary, not fetched
    | UnknownReducer          // KeyError on REDUCTION_SPECS
    | NoSuffix                // IndexError on an empty suffix list

  /** What `reduction` ends with for a reducer and the reduced bands: reducer 0
      hands back the unevaluated parameters; otherwise the retry policy runs,
      and a result is checked against the reducer table and, with a single
      suffix, has its reduced bands renamed `band_suffix` date by date. */
  ghost predicate Reduced(reducer: int, reg: Registries, reduced: set<string>, service: Service,
                          localDates: seq<Date>, perDate: DateService, outcome: ReduceOutcome)
  {
    if reducer == 0 then outcome == ServerSideParams
    else
      var run := Retry(service, localDates, perDate, 0, 0, 1);
      if run.result.None? then outcome == NoResult
      else
        var raw := run.result.value;
        if reducer !in reg.reductions then outcome == UnknownReducer
        else if reg.reductions[reducer].sufix == [] then outcome == NoSuffix
        else
          var sufix := reg.reductions[reducer].sufix;
          outcome.Retrieved? && outcome.values.Keys == raw.Keys &&
          (|sufix| != 1 ==> outcome.values == raw) &&
          (forall d :: d in raw && |sufix| == 1 && ClashFree(raw[d], reduced, sufix[0]) ==>
             IsSuffixed(outcome.values[d], raw[d], reduced, sufix[0], raw[d].Keys))
  }

  /** Lines 1497-1647: `reduction`. */
  method Reduce(reducer: int, reg: Registries, reduced: set<string>,
                service: Service, localDates: seq<Date>, perDate: DateService)
      returns (outcome: ReduceOutcome, log: seq<Event>)
    ensures Reduced(reducer, reg, reduced, service, localDates, perDate, outcome)
    ensures reducer == 0 ==> log == []
    ensures reducer != 0 ==> log == Retry(service, localDates, perDate, 0, 0, 1).log
  {
    if reducer == 0 {
      return ServerSideParams, [];
    }
    var result;
    result, log := RetrieveWithRetries(service, localDates, perDate);
    if result.None? {
      return NoResult, log;
    }
    if reducer !in reg.reductions {
      return UnknownReducer, log;
    }
    var sufixes := reg.reductions[reducer].sufix;
    if |sufixes| == 0 {
      return NoSuffix, log;
    }
    var sufix := sufixes[0];
    var values := result.value;
    if |sufixes| == 1 {
      values := SuffixFragment(values, reduced, sufix);
    }
    return Retrieved(values), log;
  }
}
