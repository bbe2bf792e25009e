/** The dashboard's observation log (public/script.js): newest entry first,
    at most 100 entries, each with an id drawn from a counter that only grows. */
module RollingLog {

  import opened Collections

  /** One observation. `data` is the formatted sensor summary, kept as text. */
  datatype LogEntry = LogEntry(id: int, timestamp: int, deviceId: string, deviceName: string, data: string)

  /** The cap on the number of entries kept. */
  const Capacity := 100

  /** The first `n` elements of `s`, or all of them if there are fewer. */
  function Take<T>(s: seq<T>, n: nat): seq<T> {
    if |s| <= n then s else s[..n]
  }

  function Reverse<T>(s: seq<T>): (r: seq<T>)
    ensures |r| == |s|
  {
    if s == [] then [] else [s[|s| - 1]] + Reverse(s[..|s| - 1])
  }

  /** `dataLogs.unshift(entry)` and then the cut to the first 100 entries: the
      new entry goes first and the oldest entries beyond the cap are dropped. */
  function Pushed(log: seq<LogEntry>, e: LogEntry): (r: seq<LogEntry>)
    ensures |r| == Min(|log| + 1, Capacity)
    ensures r[0] == e
    ensures r[1..] == log[..|r| - 1]
  {
    var grown := [e] + log;
    if |grown| > Capacity then grown[..Capacity] else grown
  }

  /** The log after the entries `es` were added one after another, oldest first. */
  function PushedAll(log: seq<LogEntry>, es: seq<LogEntry>): (r: seq<LogEntry>)
    ensures es != [] ==> |r| > 0 && r[0] == es[|es| - 1]
  {
    if es == [] then log else Pushed(PushedAll(log, es[..|es| - 1]), es[|es| - 1])
  }

  lemma PushedAllSnoc(log: seq<LogEntry>, es: seq<LogEntry>, e: LogEntry)
    ensures PushedAll(log, es + [e]) == Pushed(PushedAll(log, es), e)
  {
    assert (es + [e])[..|es|] == es;
  }

  /** The log invariant: within the cap, ids strictly decreasing from the newest
      entry, and every id below the next one to be handed out. */
  ghost predicate Ordered(log: seq<LogEntry>, next: int) {
    && |log| <= Capacity
    && (forall i, j | 0 <= i < j < |log| :: log[i].id > log[j].id)
    && (forall i | 0 <= i < |log| :: log[i].id < next)
  }

  /** Adding the entry with the next id keeps the log ordered. */
  lemma PushedOrdered(log: seq<LogEntry>, e: LogEntry, next: int)
    requires Ordered(log, next) && e.id == next
    ensures Ordered(Pushed(log, e), next + 1)
  {
    var r := Pushed(log, e);
    forall i, j | 0 <= i < j < |r|
      ensures r[i].id > r[j].id
    {
      assert r[j] == log[j - 1];
      if i > 0 {
        assert r[i] == log[i - 1];
      }
    }
  }

  lemma TakePrepend<T>(x: T, s: seq<T>, n: nat)
    ensures Take([x] + Take(s, n), n) == Take([x] + s, n)
  {
    if |s| > n && n > 0 {
      assert ([x] + s[..n])[..n] == ([x] + s)[..n];
    }
  }

  lemma ReverseSnoc<T>(s: seq<T>, x: T)
    ensures Reverse(s + [x]) == [x] + Reverse(s)
  {
    assert (s + [x])[..|s|] == s;
  }

  /** A sequence of additions keeps the newest entries, newest first, up to the cap. */
  lemma {:induction false} PushedAllKeepsNewest(log: seq<LogEntry>, es: seq<LogEntry>)
    requires |log| <= Capacity
    ensures PushedAll(log, es) == Take(Reverse(es) + log, Capacity)
  {
    if es != [] {
      var n := |es| - 1;
      var init, e := es[..n], es[n];
      PushedAllKeepsNewest(log, init);
      var before := Reverse(init) + log;
      calc {
        PushedAll(log, es);
        Pushed(Take(before, Capacity), e);
        { TakePrepend(e, before, Capacity); }
        Take([e] + before, Capacity);
        { assert es == init + [e]; ReverseSnoc(init, e); }
        Take(Reverse(es) + log, Capacity);
      }
    }
  }

  /** After `n` additions to an empty log it holds the `min(n, 100)` most recent
      entries, newest first. */
  lemma {:induction false} NewestFirst(es: seq<LogEntry>)
    ensures |PushedAll([], es)| == Min(|es|, Capacity)
    ensures forall i | 0 <= i < |PushedAll([], es)| :: PushedAll([], es)[i] == es[|es| - 1 - i]
  {
    PushedAllKeepsNewest([], es);
    forall i | 0 <= i < |PushedAll([], es)|
      ensures PushedAll([], es)[i] == es[|es| - 1 - i]
    {
      ReverseAt(es, i);
    }
  }

  lemma {:induction false} ReverseAt<T>(s: seq<T>, i: int)
    requires 0 <= i < |s|
    ensures Reverse(s)[i] == s[|s| - 1 - i]
  {
    if i > 0 {
      ReverseAt(s[..|s| - 1], i - 1);
    }
  }
}
