/**
 * The byte protocol of the ViyLine "Measure" sweep (ViyLine/GUI.rs:31-83),
 * stated on the state of the link to the microcontroller.
 *
 * The link (a serial port or a Bluetooth peripheral) is modelled by the
 * endless stream of replies the microcontroller gives, how many of them have
 * been read, and every byte written so far. The synchronisation poll of the
 * source has no bound, so it is modelled with a budget of reads. Timing (the
 * 1 ms sleeps) is not modelled.
 */
module ViyLineLink {
  import opened Float
  import IVCurve

  type Byte = b: int | 0 <= b < 256

  /** `Result<u8, ()>` of `picRead`. */
  datatype ReadResult = Got(value: Byte) | Failed

  /** The replies the microcontroller gives, one per read and without end, how
      many have been read, and everything written to it. */
  datatype Wire = Wire(replies: nat -> ReadResult, read: nat, sent: seq<Byte>)

  /** The byte that precedes every data read. */
  const ReadRequest: Byte := 0x01

  /** The byte the microcontroller sends once its sweep is ready. */
  const Ready: Byte := 0xFF

  /** Points per pass (`for p in 1..=20`). */
  const PointsPerPass: nat := 20

  /** `picWrite(b)`. */
  function Send(w: Wire, b: Byte): Wire {
    w.(sent := w.sent + [b])
  }

  /** `picRead()`: the next reply. */
  function Receive(w: Wire): (ReadResult, Wire) {
    (w.replies(w.read), w.(read := w.read + 1))
  }

  /** `readByte`: write 0x01, then read. */
  function ReadByte(w: Wire): (ReadResult, Wire) {
    Receive(Send(w, ReadRequest))
  }

  /** How the synchronisation poll ended: 0xFF arrived, a read failed
      (`break 'timesLoop`), or the budget of reads ran out while the source
      would still be polling. */
  datatype Poll = Marker | ReadError | StillPolling

  /** The synchronisation loop, for at most `budget` reads: read until 0xFF
      arrives or a read fails; other bytes are discarded. Nothing is written. */
  function Synchronise(w: Wire, budget: nat): (r: (Poll, Wire))
    ensures r.1.replies == w.replies && r.1.sent == w.sent
    ensures w.read <= r.1.read <= w.read + budget
    ensures r.0 == StillPolling ==> r.1.read == w.read + budget
    decreases budget
  {
    if budget == 0 then (StillPolling, w)
    else
      var (reply, rest) := Receive(w);
      match reply
      case Failed => (ReadError, rest)
      case Got(value) => if value == Ready then (Marker, rest) else Synchronise(rest, budget - 1)
  }

  /** Replies `from` up to `to` are all good bytes other than 0xFF. */
  predicate Discarded(w: Wire, from: nat, to: nat) {
    forall j: nat :: from <= j < to ==> w.replies(j).Got? && w.replies(j).value != Ready
  }

  /** The next 0xFF is reply `k`, and no reply before it failed. */
  predicate MarkerAt(w: Wire, k: nat) {
    w.read <= k && w.replies(k) == Got(Ready) && Discarded(w, w.read, k)
  }

  /** Reply `k` is a read error, and no reply before it failed or was 0xFF. */
  predicate ErrorAt(w: Wire, k: nat) {
    w.read <= k && w.replies(k) == Failed && Discarded(w, w.read, k)
  }

  /** Synchronisation succeeds when a 0xFF comes, before any read error, within
      the budget; it then has consumed the replies up to and including it. */
  lemma {:induction false} SynchroniseFindsMarker(w: Wire, k: nat, budget: nat)
    requires MarkerAt(w, k) && k < w.read + budget
    ensures Synchronise(w, budget) == (Marker, w.(read := k + 1))
    decreases k - w.read
  {
    if w.read < k {
      assert w.replies(w.read).Got? && w.replies(w.read).value != Ready;
      SynchroniseFindsMarker(w.(read := w.read + 1), k, budget - 1);
    }
  }

  /** A read error before any 0xFF, within the budget, aborts the
      synchronisation just after that read. */
  lemma {:induction false} SynchroniseStopsAtError(w: Wire, k: nat, budget: nat)
    requires ErrorAt(w, k) && k < w.read + budget
    ensures Synchronise(w, budget) == (ReadError, w.(read := k + 1))
    decreases k - w.read
  {
    if w.read < k {
      assert w.replies(w.read).Got? && w.replies(w.read).value != Ready;
      SynchroniseStopsAtError(w.(read := w.read + 1), k, budget - 1);
    }
  }

  /** The poll is still running when the budget is used up exactly when every
      reply the budget covers is a good byte other than 0xFF. So on a link that
      keeps answering with other bytes (a silent serial port reads as 0x00)
      no budget is enough, and the source's poll never returns. */
  lemma {:induction false} SynchroniseOutOfBudget(w: Wire, budget: nat)
    ensures Synchronise(w, budget).0 == StillPolling <==> Discarded(w, w.read, w.read + budget)
    decreases budget
  {
    if budget > 0 {
      var rest := w.(read := w.read + 1);
      SynchroniseOutOfBudget(rest, budget - 1);
      if w.replies(w.read).Got? && w.replies(w.read).value != Ready {
        assert Discarded(w, w.read, w.read + budget) <==> Discarded(rest, rest.read, rest.read + (budget - 1));
      } else {
        assert !Discarded(w, w.read, w.read + budget);
      }
    }
  }

  /** A link that answers only with bytes other than 0xFF, from now on,
      keeps the poll running whatever the budget. */
  lemma EndlessRepliesNeverSynchronise(w: Wire, budget: nat)
    requires forall j: nat :: w.read <= j ==> w.replies(j).Got? && w.replies(j).value != Ready
    ensures Synchronise(w, budget) == (StillPolling, w.(read := w.read + budget))
  {
    SynchroniseOutOfBudget(w, budget);
  }

  /** `upper*256 + lower`. */
  function Raw(upper: Byte, lower: Byte): (r: int)
    ensures 0 <= r <= 65535
  {
    upper * 256 + lower
  }

  /** The two bytes can be read back from the raw value, and every value in
      0..65535 is the raw value of its two bytes. */
  lemma RawRoundTrip(upper: Byte, lower: Byte, r: int)
    requires 0 <= r <= 65535
    ensures Raw(upper, lower) / 256 == upper && Raw(upper, lower) % 256 == lower
    ensures Raw(r / 256, r % 256) == r
  {
  }

  /** One point from its four bytes: V = raw_V/1023*Ki and I = raw_I/1023*Kv
      (as written: Ki scales the voltage and Kv the current). */
  function Decode(upperV: Byte, lowerV: Byte, upperI: Byte, lowerI: Byte, Ki: real, Kv: real): IVCurve.IVPoint {
    IVCurve.IVPoint((Raw(upperV, lowerV) as real / 1023.0) * Ki, (Raw(upperI, lowerI) as real / 1023.0) * Kv)
  }

  /** One point: the upper and lower byte of V, then of I, each read with a
      checked `readByte`; `None` at the panic of the first failed read, with
      the link as that read left it. */
  function ReadPoint(w: Wire, Ki: real, Kv: real): (Option<IVCurve.IVPoint>, Wire) {
    var (upperV, w1) := ReadByte(w);
    if upperV.Failed? then (None, w1) else
    var (lowerV, w2) := ReadByte(w1);
    if lowerV.Failed? then (None, w2) else
    var (upperI, w3) := ReadByte(w2);
    if upperI.Failed? then (None, w3) else
    var (lowerI, w4) := ReadByte(w3);
    if lowerI.Failed? then (None, w4) else
    (Some(Decode(upperV.value, lowerV.value, upperI.value, lowerI.value, Ki, Kv)), w4)
  }

  datatype PassRead = PassRead(points: seq<IVCurve.IVPoint>, wire: Wire, panicked: bool)

  /** The point loop of a pass: `n` more points after the `acc` already read,
      stopping at a panic. */
  function ReadPoints(w: Wire, n: nat, acc: seq<IVCurve.IVPoint>, Ki: real, Kv: real): (r: PassRead)
    ensures |acc| <= |r.points| <= |acc| + n
    ensures !r.panicked ==> |r.points| == |acc| + n
    decreases n
  {
    if n == 0 then PassRead(acc, w, false)
    else
      var (p, w1) := ReadPoint(w, Ki, Kv);
      if p.None? then PassRead(acc, w1, true)
      else ReadPoints(w1, n - 1, acc + [p.value], Ki, Kv)
  }

  /** One step of the point loop when the next point reads. */
  lemma ReadPointsAdvance(w: Wire, n: nat, acc: seq<IVCurve.IVPoint>, Ki: real, Kv: real)
    requires n > 0 && ReadPoint(w, Ki, Kv).0.Some?
    ensures ReadPoints(w, n, acc, Ki, Kv)
         == ReadPoints(ReadPoint(w, Ki, Kv).1, n - 1, acc + [ReadPoint(w, Ki, Kv).0.value], Ki, Kv)
  {
  }

  /** A pass of `n` points from none. */
  function ReadPass(w: Wire, n: nat, Ki: real, Kv: real): (r: PassRead)
    ensures |r.points| <= n
    ensures !r.panicked ==> |r.points| == n
  {
    ReadPoints(w, n, [], Ki, Kv)
  }

  /** Sequence facts the loops of the application use. */
  lemma ConcatAssoc<T>(a: seq<T>, b: seq<T>, c: seq<T>)
    ensures a + (b + c) == (a + b) + c
  {
  }

  lemma ConcatEmpty<T>(a: seq<T>)
    ensures a + [] == a
  {
  }

  /** `k` copies of the read request. */
  function Requests(k: nat): (r: seq<Byte>)
    ensures |r| == k && forall j :: 0 <= j < k ==> r[j] == ReadRequest
  {
    seq(k, _ => ReadRequest)
  }

  lemma RequestsAdd(a: nat, b: nat, c: nat)
    requires a + b == c
    ensures Requests(a) + Requests(b) == Requests(c)
  {
  }

  /** The next `k` replies are good bytes. */
  predicate Good(w: Wire, k: nat) {
    forall j: nat :: w.read <= j < w.read + k ==> w.replies(j).Got?
  }

  /** The next `d + rest` replies are good exactly when the next `d` are and,
      `d` replies later, the next `rest` are. */
  lemma GoodSplit(w: Wire, d: nat, rest: nat, total: nat, later: Wire)
    requires d + rest == total
    requires later.replies == w.replies && later.read == w.read + d
    ensures Good(w, total) <==> Good(w, d) && Good(later, rest)
  {
  }

  /** One read succeeds exactly when the next reply is a good byte; it then
      has written one read request and consumed that reply. */
  lemma ReadByteCompletes(w: Wire)
    ensures ReadByte(w).0.Got? <==> Good(w, 1)
    ensures ReadByte(w).0.Got? ==> ReadByte(w).1 == w.(read := w.read + 1, sent := w.sent + Requests(1))
  {
    if w.replies(w.read).Failed? {
      assert !Good(w, 1);
    }
  }

  /** A point reads without a panic exactly when the next four replies are good
      bytes; it then has written four read requests and consumed those
      replies. */
  lemma ReadPointCompletes(w: Wire, Ki: real, Kv: real)
    ensures ReadPoint(w, Ki, Kv).0.Some? <==> Good(w, 4)
    ensures ReadPoint(w, Ki, Kv).0.Some? ==>
        ReadPoint(w, Ki, Kv).1 == w.(read := w.read + 4, sent := w.sent + Requests(4))
  {
    ReadByteCompletes(w);
    GoodSplit(w, 1, 3, 4, w.(read := w.read + 1));
    var (upperV, w1) := ReadByte(w);
    if upperV.Got? {
      ReadByteCompletes(w1);
      GoodSplit(w1, 1, 2, 3, w1.(read := w1.read + 1));
      var (lowerV, w2) := ReadByte(w1);
      if lowerV.Got? {
        ReadByteCompletes(w2);
        GoodSplit(w2, 1, 1, 2, w2.(read := w2.read + 1));
        var (upperI, w3) := ReadByte(w2);
        if upperI.Got? {
          ReadByteCompletes(w3);
          RequestsAdd(1, 1, 2);
          RequestsAdd(2, 1, 3);
          RequestsAdd(3, 1, 4);
        }
      }
    }
  }

  /** With the next 4n replies good, a pass of n points completes, having
      written 4n read requests and consumed those replies. */
  lemma {:induction false} GoodRepliesCompletePass(w: Wire, n: nat, acc: seq<IVCurve.IVPoint>, Ki: real, Kv: real)
    requires Good(w, 4 * n)
    ensures !ReadPoints(w, n, acc, Ki, Kv).panicked
    ensures ReadPoints(w, n, acc, Ki, Kv).wire == w.(read := w.read + 4 * n, sent := w.sent + Requests(4 * n))
    decreases n
  {
    if n > 0 {
      var w1 := w.(read := w.read + 4, sent := w.sent + Requests(4));
      GoodSplit(w, 4, 4 * (n - 1), 4 * n, w1);
      ReadPointCompletes(w, Ki, Kv);
      ReadPointsAdvance(w, n, acc, Ki, Kv);
      GoodRepliesCompletePass(w1, n - 1, acc + [ReadPoint(w, Ki, Kv).0.value], Ki, Kv);
      RequestsAdd(4, 4 * (n - 1), 4 * n);
      ConcatAssoc(w.sent, Requests(4), Requests(4 * (n - 1)));
    }
  }

  /** A missing or failed reply among the next 4n makes the pass panic. */
  lemma {:induction false} BadReplyPanicsPass(w: Wire, n: nat, acc: seq<IVCurve.IVPoint>, Ki: real, Kv: real)
    requires !Good(w, 4 * n)
    ensures ReadPoints(w, n, acc, Ki, Kv).panicked
    decreases n
  {
    ReadPointCompletes(w, Ki, Kv);
    var (p, w1) := ReadPoint(w, Ki, Kv);
    if p.Some? {
      GoodSplit(w, 4, 4 * (n - 1), 4 * n, w1);
      BadReplyPanicsPass(w1, n - 1, acc + [p.value], Ki, Kv);
    }
  }

  /** A pass completes exactly when the next 4n replies are good bytes; it then
      has written 4n read requests and consumed those 4n replies. For a pass
      of 20 points that is 80 writes of 0x01 and 80 reads. */
  lemma ReadPassCompletes(w: Wire, n: nat, Ki: real, Kv: real)
    ensures !ReadPass(w, n, Ki, Kv).panicked <==> Good(w, 4 * n)
    ensures !ReadPass(w, n, Ki, Kv).panicked ==>
        ReadPass(w, n, Ki, Kv).wire == w.(read := w.read + 4 * n, sent := w.sent + Requests(4 * n))
  {
    if Good(w, 4 * n) {
      GoodRepliesCompletePass(w, n, [], Ki, Kv);
    } else {
      BadReplyPanicsPass(w, n, [], Ki, Kv);
    }
  }

  /** The pass list: six delta-T values over a serial port, one over
      Bluetooth. */
  function PassList(bluetooth: bool): (r: seq<Byte>)
    ensures bluetooth ==> r == [40]
    ensures !bluetooth ==> r == [5, 10, 15, 20, 30, 50]
  {
    if bluetooth then [40] else [5, 10, 15, 20, 30, 50]
  }

  /** How the pass loop ended: all passes done, a read error while
      synchronising (`break 'timesLoop`), a panic in `unwrap`, or a poll
      still running when its budget ran out (the source never returns). */
  datatype End = Completed | Aborted | Panicked | Stalled

  datatype Outcome = Outcome(points: seq<IVCurve.IVPoint>, wire: Wire, end: End)

  /** The pass loop of "Measure" over the given delta-T values, each poll
      with at most `budget` reads. */
  function Sweep(times: seq<Byte>, w: Wire, budget: nat, Ki: real, Kv: real): Outcome
    decreases |times|
  {
    if times == [] then Outcome([], w, Completed)
    else
      var (poll, w1) := Synchronise(Send(w, times[0]), budget);
      if poll == ReadError then Outcome([], w1, Aborted)
      else if poll == StillPolling then Outcome([], w1, Stalled)
      else
        var pass := ReadPass(w1, PointsPerPass, Ki, Kv);
        if pass.panicked then Outcome(pass.points, pass.wire, Panicked)
        else
          var rest := Sweep(times[1..], pass.wire, budget, Ki, Kv);
          Outcome(pass.points + rest.points, rest.wire, rest.end)
  }

  /** The four ways one pass of the sweep can end. */
  lemma SweepAborts(times: seq<Byte>, w: Wire, budget: nat, Ki: real, Kv: real)
    requires times != [] && Synchronise(Send(w, times[0]), budget).0 == ReadError
    ensures Sweep(times, w, budget, Ki, Kv) == Outcome([], Synchronise(Send(w, times[0]), budget).1, Aborted)
  {
  }

  lemma SweepStalls(times: seq<Byte>, w: Wire, budget: nat, Ki: real, Kv: real)
    requires times != [] && Synchronise(Send(w, times[0]), budget).0 == StillPolling
    ensures Sweep(times, w, budget, Ki, Kv) == Outcome([], Synchronise(Send(w, times[0]), budget).1, Stalled)
  {
  }

  lemma SweepPanics(times: seq<Byte>, w: Wire, budget: nat, Ki: real, Kv: real)
    requires times != [] && Synchronise(Send(w, times[0]), budget).0 == Marker
    requires ReadPass(Synchronise(Send(w, times[0]), budget).1, PointsPerPass, Ki, Kv).panicked
    ensures var pass := ReadPass(Synchronise(Send(w, times[0]), budget).1, PointsPerPass, Ki, Kv);
      Sweep(times, w, budget, Ki, Kv) == Outcome(pass.points, pass.wire, Panicked)
  {
  }

  lemma SweepContinues(times: seq<Byte>, w: Wire, budget: nat, Ki: real, Kv: real)
    requires times != [] && Synchronise(Send(w, times[0]), budget).0 == Marker
    requires !ReadPass(Synchronise(Send(w, times[0]), budget).1, PointsPerPass, Ki, Kv).panicked
    ensures var pass := ReadPass(Synchronise(Send(w, times[0]), budget).1, PointsPerPass, Ki, Kv);
      var rest := Sweep(times[1..], pass.wire, budget, Ki, Kv);
      Sweep(times, w, budget, Ki, Kv) == Outcome(pass.points + rest.points, rest.wire, rest.end)
  {
  }

  /** On a link that, after the first delta-T byte, only ever answers with
      bytes other than 0xFF, the sweep stalls in its first poll whatever the
      budget, having added no point. */
  lemma EndlessRepliesStallSweep(times: seq<Byte>, w: Wire, budget: nat, Ki: real, Kv: real)
    requires times != []
    requires forall j: nat :: w.read <= j ==> w.replies(j).Got? && w.replies(j).value != Ready
    ensures Sweep(times, w, budget, Ki, Kv).end == Stalled
    ensures Sweep(times, w, budget, Ki, Kv).points == []
  {
    EndlessRepliesNeverSynchronise(Send(w, times[0]), budget);
  }

  /** Unless a read panics, the sweep adds whole passes: all of them when it
      completes, the ones before the last synchronisation when it aborts or
      stalls. */
  lemma {:induction false} SweepAddsWholePasses(times: seq<Byte>, w: Wire, budget: nat, Ki: real, Kv: real)
    ensures var s := Sweep(times, w, budget, Ki, Kv);
      && |s.points| <= PointsPerPass * |times|
      && (s.end == Completed ==> |s.points| == PointsPerPass * |times|)
      && (s.end != Panicked ==> exists q: nat :: q <= |times| && |s.points| == PointsPerPass * q)
    decreases |times|
  {
    if times != [] {
      var (poll, w1) := Synchronise(Send(w, times[0]), budget);
      if poll == Marker {
        var pass := ReadPass(w1, PointsPerPass, Ki, Kv);
        if !pass.panicked {
          SweepAddsWholePasses(times[1..], pass.wire, budget, Ki, Kv);
          var s := Sweep(times[1..], pass.wire, budget, Ki, Kv);
          if s.end != Panicked {
            var q: nat :| q <= |times[1..]| && |s.points| == PointsPerPass * q;
            assert |pass.points + s.points| == PointsPerPass * (q + 1);
          }
        }
      } else {
        assert |Sweep(times, w, budget, Ki, Kv).points| == PointsPerPass * 0;
      }
    } else {
      assert |Sweep(times, w, budget, Ki, Kv).points| == PointsPerPass * 0;
    }
  }

  /** What a completed sweep writes: per pass its delta-T byte, then one read
      request per byte of its 20 points. Synchronisation writes nothing. */
  function Transcript(times: seq<Byte>): seq<Byte>
    decreases |times|
  {
    if times == [] then [] else [times[0]] + Requests(4 * PointsPerPass) + Transcript(times[1..])
  }

  lemma {:induction false} CompletedSweepTranscript(times: seq<Byte>, w: Wire, budget: nat, Ki: real, Kv: real)
    requires Sweep(times, w, budget, Ki, Kv).end == Completed
    ensures Sweep(times, w, budget, Ki, Kv).wire.sent == w.sent + Transcript(times)
    decreases |times|
  {
    if times != [] {
      var (poll, w1) := Synchronise(Send(w, times[0]), budget);
      ReadPassCompletes(w1, PointsPerPass, Ki, Kv);
      var pass := ReadPass(w1, PointsPerPass, Ki, Kv);
      CompletedSweepTranscript(times[1..], pass.wire, budget, Ki, Kv);
    }
  }

  /** The link to the microcontroller. */
  class Link {
    const replies: nat -> ReadResult
    var read: nat
    var sent: seq<Byte>

    constructor (replies: nat -> ReadResult)
      ensures State() == Wire(replies, 0, [])
    {
      this.replies := replies;
      read := 0;
      sent := [];
    }

    function State(): Wire
      reads this`read, this`sent
    {
      Wire(replies, read, sent)
    }

    /** `picWrite`. */
    method Write(b: Byte)
      modifies this`sent
      ensures State() == Send(old(State()), b)
    {
      sent := sent + [b];
    }

    /** `picRead`. */
    method Read() returns (r: ReadResult)
      modifies this`read
      ensures (r, State()) == Receive(old(State()))
    {
      r := replies(read);
      read := read + 1;
    }
  }
}
