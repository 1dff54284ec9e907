/** The receive loop of a session socket and its limit of 60 messages in 60 seconds. */
module MessageWindow {
  import opened Basics

  const WINDOW_SECONDS := 60.0
  const MAX_MESSAGES := 60
  const MAX_LENGTH := 4096

  datatype Received = Received(at: real, length: nat)

  predicate IsMonotone(messages: seq<Received>) {
    forall i, j | 0 <= i <= j < |messages| :: messages[i].at <= messages[j].at
  }

  /** The receive times no older than 60 seconds at time `now`, in order. */
  function Recent(messages: seq<Received>, now: real): seq<real> {
    if messages == [] then []
    else
      var last := messages[|messages| - 1];
      Recent(messages[..|messages| - 1], now) + (if last.at >= now - WINDOW_SECONDS then [last.at] else [])
  }

  /** Message k is the 61st of some 60-second window. */
  predicate IsCrowded(messages: seq<Received>, k: nat)
    requires k < |messages|
  {
    k >= MAX_MESSAGES && messages[k].at - messages[k - MAX_MESSAGES].at <= WINDOW_SECONDS
  }

  predicate ClosesAt(messages: seq<Received>, k: nat)
    requires k < |messages|
  {
    messages[k].length > MAX_LENGTH || IsCrowded(messages, k)
  }

  function Times(messages: seq<Received>): seq<real> {
    seq(|messages|, i requires 0 <= i < |messages| => messages[i].at)
  }

  /** For a monotone clock the recent times are a suffix of all times. */
  lemma {:induction false} RecentIsSuffix(messages: seq<Received>, now: real, from: nat)
    requires IsMonotone(messages) && from <= |messages|
    requires forall i | 0 <= i < from :: messages[i].at < now - WINDOW_SECONDS
    requires forall i | from <= i < |messages| :: messages[i].at >= now - WINDOW_SECONDS
    ensures Recent(messages, now) == Times(messages)[from..]
  {
    if messages != [] {
      var init := messages[..|messages| - 1];
      if from == |messages| {
        RecentIsSuffix(init, now, from - 1);
      } else {
        RecentIsSuffix(init, now, from);
      }
      assert Times(messages) == Times(init) + [messages[|messages| - 1].at];
    }
  }

  /** The deque without the leading times older than the window. */
  ghost predicate IsTrimmed(deque: seq<real>, now: real, kept: seq<real>) {
    && |kept| <= |deque| && kept == deque[|deque| - |kept|..]
    && (forall i | 0 <= i < |deque| - |kept| :: deque[i] < now - WINDOW_SECONDS)
    && (kept != [] ==> kept[0] >= now - WINDOW_SECONDS)
  }

  /** The inner loop: pop what is older than the window from the left of the deque. */
  method DropExpired(deque: seq<real>, now: real) returns (kept: seq<real>)
    ensures IsTrimmed(deque, now, kept)
  {
    kept := deque;
    while kept != [] && kept[0] < now - WINDOW_SECONDS
      invariant |kept| <= |deque| && kept == deque[|deque| - |kept|..]
      invariant forall i | 0 <= i < |deque| - |kept| :: deque[i] < now - WINDOW_SECONDS
      decreases |kept|
    {
      kept := kept[1..];
    }
  }

  /** The deque after message k was handled. */
  ghost predicate IsWindow(messages: seq<Received>, k: nat, from: nat, deque: seq<real>)
    requires k < |messages|
  {
    && from <= k && deque == Times(messages)[from..k + 1]
    && (forall i | 0 <= i < from :: messages[i].at < messages[k].at - WINDOW_SECONDS)
    && (forall i | from <= i <= k :: messages[i].at >= messages[k].at - WINDOW_SECONDS)
  }

  lemma WindowIsRecent(messages: seq<Received>, k: nat, from: nat, deque: seq<real>)
    requires IsMonotone(messages) && k < |messages| && IsWindow(messages, k, from, deque)
    ensures deque == Recent(messages[..k + 1], messages[k].at)
    ensures |deque| > MAX_MESSAGES <==> IsCrowded(messages, k)
  {
    RecentIsSuffix(messages[..k + 1], messages[k].at, from);
    assert Times(messages[..k + 1])[from..] == Times(messages)[from..k + 1];
  }

  lemma WindowMoves(messages: seq<Received>, k: nat, from: nat, deque: seq<real>, kept: seq<real>)
    requires IsMonotone(messages) && k < |messages|
    requires if k == 0 then from == 0 && deque == [] else IsWindow(messages, k - 1, from, deque)
    requires IsTrimmed(deque, messages[k].at, kept)
    ensures IsWindow(messages, k, from + |deque| - |kept|, kept + [messages[k].at])
  {
    assert kept + [messages[k].at] == Times(messages)[from + |deque| - |kept|..k + 1];
    forall i | from <= i < from + |deque| - |kept| ensures messages[i].at < messages[k].at - WINDOW_SECONDS {
      assert deque[i - from] == messages[i].at;
    }
    if kept != [] {
      assert kept[0] == messages[from + |deque| - |kept|].at;
    }
  }

  /** The receive times within 60 seconds of the latest of the first `count` messages. */
  function WindowAfter(messages: seq<Received>, count: nat): seq<real>
    requires count <= |messages|
  {
    if count == 0 then [] else Recent(messages[..count], messages[count - 1].at)
  }

  /** The deque after the first `count` messages, and where in the list of all times it begins. */
  ghost predicate IsDequeAfter(messages: seq<Received>, count: nat, from: nat, deque: seq<real>)
    requires count <= |messages|
  {
    if count == 0 then from == 0 && deque == [] else IsWindow(messages, count - 1, from, deque)
  }

  lemma DequeIsWindow(messages: seq<Received>, count: nat, from: nat, deque: seq<real>)
    requires IsMonotone(messages) && count <= |messages| && IsDequeAfter(messages, count, from, deque)
    ensures deque == WindowAfter(messages, count)
  {
    if count > 0 {
      WindowIsRecent(messages, count - 1, from, deque);
    }
  }

  /** One turn of the loop after the old times were dropped. */
  lemma HandledMessage(messages: seq<Received>, k: nat, from: nat, deque: seq<real>, kept: seq<real>)
    requires IsMonotone(messages) && k < |messages| && IsDequeAfter(messages, k, from, deque)
    requires IsTrimmed(deque, messages[k].at, kept)
    ensures var after := kept + [messages[k].at];
      && IsDequeAfter(messages, k + 1, from + |deque| - |kept|, after)
      && (ClosesAt(messages, k) <==> messages[k].length > MAX_LENGTH || |after| > MAX_MESSAGES)
  {
    WindowMoves(messages, k, from, deque, kept);
    WindowIsRecent(messages, k, from + |deque| - |kept|, kept + [messages[k].at]);
  }

  /** What the loop does with one message. */
  method Handle(messages: seq<Received>, k: nat, ghost from: nat, deque: seq<real>)
    returns (receivedAt: seq<real>, ghost newFrom: nat, closes: bool)
    requires IsMonotone(messages) && k < |messages| && IsDequeAfter(messages, k, from, deque)
    ensures IsDequeAfter(messages, k + 1, newFrom, receivedAt)
    ensures closes <==> ClosesAt(messages, k)
  {
    hide IsDequeAfter, IsMonotone, ClosesAt, IsTrimmed;
    var now := messages[k].at;
    var kept := DropExpired(deque, now);
    HandledMessage(messages, k, from, deque, kept);
    receivedAt := kept + [now];
    newFrom := from + |deque| - |kept|;
    closes := messages[k].length > MAX_LENGTH || |receivedAt| > MAX_MESSAGES;
  }

  /** The loop: it ends at the first message that is too long or one too many, and the deque is always the window. */
  method Receive(messages: seq<Received>) returns (closedAt: Option<nat>, receivedAt: seq<real>)
    requires IsMonotone(messages)
    ensures closedAt.None? <==> forall k | 0 <= k < |messages| :: !ClosesAt(messages, k)
    ensures closedAt.Some? ==> closedAt.value < |messages| && ClosesAt(messages, closedAt.value)
    ensures closedAt.Some? ==> forall k | 0 <= k < closedAt.value :: !ClosesAt(messages, k)
    ensures receivedAt == WindowAfter(messages, if closedAt.Some? then closedAt.value + 1 else |messages|)
  {
    receivedAt := [];
    ghost var from := 0;
    for k := 0 to |messages|
      invariant IsDequeAfter(messages, k, from, receivedAt)
      invariant forall i | 0 <= i < k :: !ClosesAt(messages, i)
    {
      hide IsDequeAfter, IsMonotone, ClosesAt, WindowAfter;
      var closes;
      receivedAt, from, closes := Handle(messages, k, from, receivedAt);
      if closes {
        DequeIsWindow(messages, k + 1, from, receivedAt);
        closedAt := Some(k);
        return;
      }
    }
    DequeIsWindow(messages, |messages|, from, receivedAt);
    closedAt := None;
  }

  /**
   The count closes the connection exactly when some 60 seconds hold more than 60 messages, wherever those
   60 seconds begin.
   */
  lemma CrowdedMeansSomeWindow(messages: seq<Received>)
    requires IsMonotone(messages)
    ensures (exists k | 0 <= k < |messages| :: IsCrowded(messages, k))
        <==> exists first, last | 0 <= first <= last < |messages| ::
               HoldsTooMany(messages, first, last)
  {
    if k :| 0 <= k < |messages| && IsCrowded(messages, k) {
      assert HoldsTooMany(messages, k - MAX_MESSAGES, k);
    }
    if first, last :| 0 <= first <= last < |messages| && HoldsTooMany(messages, first, last) {
      var k := first + MAX_MESSAGES;
      assert messages[k].at <= messages[last].at;
      assert IsCrowded(messages, k);
    }
  }

  /** Messages `first` to `last` are more than 60 and all lie within one stretch of 60 seconds. */
  predicate HoldsTooMany(messages: seq<Received>, first: nat, last: nat)
    requires first <= last < |messages|
  {
    last - first + 1 > MAX_MESSAGES && messages[last].at - messages[first].at <= WINDOW_SECONDS
  }
}
