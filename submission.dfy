/**
 * Submitting the order form with a bounded retry: click "order" until the
 * error banner is gone, at most ten times, pausing one second after every
 * click that leaves the banner up, and log (without raising) when all ten
 * clicks failed.
 *
 * The browser is replaced by its answers: `stillError[i]` is whether the
 * error banner is present after click number i (counting from 0).
 */
module Submission {

  const MaxAttempts: nat := 10
  /** `page.wait_for_timeout(1000)`. */
  const PauseMillis: nat := 1000

  /** What the submit step does to the outside world, in order. */
  datatype Event = Click | Pause(millis: nat) | LogError(orderNumber: string)

  function ClickCount(t: seq<Event>): nat {
    if t == [] then 0 else (if t[0] == Click then 1 else 0) + ClickCount(t[1..])
  }

  function PauseCount(t: seq<Event>): nat {
    if t == [] then 0 else (if t[0].Pause? then 1 else 0) + PauseCount(t[1..])
  }

  predicate Logged(t: seq<Event>) {
    exists i :: 0 <= i < |t| && t[i].LogError?
  }

  /**
   * Index of the first click that clears the error banner, looking at clicks
   * `from` onward; MaxAttempts when none of the ten clicks clears it.
   */
  function FirstClear(stillError: seq<bool>, from: nat): (k: nat)
    requires from <= MaxAttempts <= |stillError|
    ensures from <= k <= MaxAttempts
    ensures forall i :: from <= i < k ==> stillError[i]
    ensures k < MaxAttempts ==> !stillError[k]
    decreases MaxAttempts - from
  {
    if from == MaxAttempts || !stillError[from] then from else FirstClear(stillError, from + 1)
  }

  /** `n` failed rounds: a click, then the one-second pause. */
  function Rounds(n: nat): seq<Event> {
    if n == 0 then [] else Rounds(n - 1) + [Click, Pause(PauseMillis)]
  }

  /**
   * What submitting does, stated by the first clearing click: k failed
   * rounds and the clearing click, or ten failed rounds and the error log.
   */
  function SubmitTrace(orderNumber: string, stillError: seq<bool>): seq<Event>
    requires |stillError| >= MaxAttempts
  {
    var k := FirstClear(stillError, 0);
    if k < MaxAttempts then Rounds(k) + [Click] else Rounds(MaxAttempts) + [LogError(orderNumber)]
  }

  /** The retry loop, with the attempt counter that only counts failed clicks. */
  method SubmitForm(orderNumber: string, stillError: seq<bool>) returns (trace: seq<Event>)
    requires |stillError| >= MaxAttempts
    ensures trace == SubmitTrace(orderNumber, stillError)
  {
    var attempt := 0;
    trace := [];
    while attempt < MaxAttempts
      invariant 0 <= attempt <= MaxAttempts
      invariant forall i :: 0 <= i < attempt ==> stillError[i]
      invariant trace == Rounds(attempt)
    {
      trace := trace + [Click];
      if !stillError[attempt] {
        break;
      }
      attempt := attempt + 1;
      trace := trace + [Pause(PauseMillis)];
    }
    if attempt == MaxAttempts {
      trace := trace + [LogError(orderNumber)];
    }
    FirstClearIsFirst(stillError, attempt);
  }

  /** Any index that is the first clearing click (or ten, when none is) is what FirstClear finds. */
  lemma FirstClearIsFirst(stillError: seq<bool>, k: nat)
    requires k <= MaxAttempts <= |stillError|
    requires forall i :: 0 <= i < k ==> stillError[i]
    requires k < MaxAttempts ==> !stillError[k]
    ensures FirstClear(stillError, 0) == k
  {
  }

  lemma CountsOfConcat(a: seq<Event>, b: seq<Event>)
    ensures ClickCount(a + b) == ClickCount(a) + ClickCount(b)
    ensures PauseCount(a + b) == PauseCount(a) + PauseCount(b)
    decreases |a|
  {
    if a == [] {
      assert a + b == b;
    } else {
      assert (a + b)[1..] == a[1..] + b;
      CountsOfConcat(a[1..], b);
    }
  }

  /** n failed rounds hold n clicks, n pauses, no log, and alternate click/pause. */
  lemma {:induction false} RoundsShape(n: nat)
    ensures |Rounds(n)| == 2 * n
    ensures ClickCount(Rounds(n)) == n && PauseCount(Rounds(n)) == n
    ensures !Logged(Rounds(n))
    ensures forall j :: 0 <= j < n ==> Rounds(n)[2 * j] == Click && Rounds(n)[2 * j + 1] == Pause(PauseMillis)
  {
    if n > 0 {
      RoundsShape(n - 1);
      CountsOfConcat(Rounds(n - 1), [Click, Pause(PauseMillis)]);
      var tail: seq<Event> := [Click, Pause(PauseMillis)];
      assert tail[1..] == [Pause(PauseMillis)] && tail[1..][1..] == [];
      assert ClickCount(tail[1..]) == 0 && PauseCount(tail[1..]) == 1;
    }
  }

  /** If the banner first clears after click k (1 <= k <= 10), there are exactly k clicks, k - 1 pauses and no log. */
  lemma SubmitClearsAfter(orderNumber: string, stillError: seq<bool>, k: nat)
    requires |stillError| >= MaxAttempts
    requires 1 <= k <= MaxAttempts
    requires forall i :: 0 <= i < k - 1 ==> stillError[i]
    requires !stillError[k - 1]
    ensures ClickCount(SubmitTrace(orderNumber, stillError)) == k
    ensures PauseCount(SubmitTrace(orderNumber, stillError)) == k - 1
    ensures !Logged(SubmitTrace(orderNumber, stillError))
  {
    FirstClearIsFirst(stillError, k - 1);
    RoundsShape(k - 1);
    CountsOfConcat(Rounds(k - 1), [Click]);
    var t := SubmitTrace(orderNumber, stillError);
    assert t == Rounds(k - 1) + [Click];
    forall i | 0 <= i < |t| ensures !t[i].LogError? {
      if i < |Rounds(k - 1)| {
        assert t[i] == Rounds(k - 1)[i];
      }
    }
  }

  /** Whatever the banner does: at most ten clicks, and the error is logged exactly when all ten clicks fail. */
  lemma SubmitBoundsAndLog(orderNumber: string, stillError: seq<bool>)
    requires |stillError| >= MaxAttempts
    ensures ClickCount(SubmitTrace(orderNumber, stillError)) <= MaxAttempts
    ensures Logged(SubmitTrace(orderNumber, stillError)) <==> forall i :: 0 <= i < MaxAttempts ==> stillError[i]
  {
    var k := FirstClear(stillError, 0);
    var t := SubmitTrace(orderNumber, stillError);
    if k < MaxAttempts {
      SubmitClearsAfter(orderNumber, stillError, k + 1);
    } else {
      RoundsShape(MaxAttempts);
      CountsOfConcat(Rounds(MaxAttempts), [LogError(orderNumber)]);
      assert t[|t| - 1].LogError?;
    }
  }

  /**
   * Click j (counting from 0) is at position 2j, and it is followed by a
   * pause exactly when it left the error banner up: one pause per failed
   * click, the tenth included, and none after the clearing click.
   */
  lemma SubmitPauseFollowsFailedClick(orderNumber: string, stillError: seq<bool>, j: nat)
    requires |stillError| >= MaxAttempts
    requires j < ClickCount(SubmitTrace(orderNumber, stillError))
    ensures 2 * j < |SubmitTrace(orderNumber, stillError)|
    ensures SubmitTrace(orderNumber, stillError)[2 * j] == Click
    ensures (2 * j + 1 < |SubmitTrace(orderNumber, stillError)|
             && SubmitTrace(orderNumber, stillError)[2 * j + 1] == Pause(PauseMillis))
            <==> stillError[j]
  {
    var k := FirstClear(stillError, 0);
    var t := SubmitTrace(orderNumber, stillError);
    if k < MaxAttempts {
      RoundsShape(k);
      CountsOfConcat(Rounds(k), [Click]);
      assert ClickCount([Click]) == 1;
      if j < k {
        assert t[2 * j] == Rounds(k)[2 * j];
        assert t[2 * j + 1] == Rounds(k)[2 * j + 1];
      } else {
        assert t[2 * j] == Click;
      }
    } else {
      RoundsShape(MaxAttempts);
      CountsOfConcat(Rounds(MaxAttempts), [LogError(orderNumber)]);
      assert ClickCount([LogError(orderNumber)]) == 0;
      assert t[2 * j] == Rounds(MaxAttempts)[2 * j];
      assert t[2 * j + 1] == Rounds(MaxAttempts)[2 * j + 1];
    }
  }
}
