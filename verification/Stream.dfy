/** Credit-based flow control of one stream leg between two hosts: the sender's
    window in the controller host, the receiver's window in the executor route,
    and the lossy channel between them. */
module Stream {

  const U64_MAX: nat := 0xFFFF_FFFF_FFFF_FFFF
  const INITIAL_GRANT: nat := 65536
  const TOPUP: nat := 32768
  const MAX_STREAM_BYTES: nat := 1048576

  function SaturatingAdd(a: nat, b: nat): nat {
    if a + b > U64_MAX then U64_MAX else a + b
  }

  datatype Chunk = Chunk(seq_: nat, len: nat)

  datatype Sender = Sender(next: nat, granted: nat, sent: nat, ended: bool)

  datatype Receiver = Receiver(next: nat, received: nat, granted: nat, ended: bool)

  datatype Relayed = Skipped | OverWindow | QuotaMiss | Forwarded

  datatype Intake = Accept(topup: nat) | Over | Ignore

  const FRESH_RECEIVER := Receiver(0, 0, INITIAL_GRANT, false)

  function Bound(initialCredit: nat): Sender {
    Sender(0, initialCredit, 0, false)
  }

  /** A component frame on its way to the remote leg. */
  function Relay(tx: Sender, c: Chunk, quota: bool): (Sender, Relayed) {
    if tx.ended || c.seq_ != tx.next then (tx, Skipped)
    else if SaturatingAdd(tx.sent, c.len) > tx.granted then (tx.(next := tx.next + 1, ended := true), OverWindow)
    else if !quota then (tx.(next := tx.next + 1), QuotaMiss)
    else (tx.(next := tx.next + 1, sent := tx.sent + c.len), Forwarded)
  }

  function Credit(tx: Sender, credit: nat): Sender {
    if tx.ended then tx else tx.(granted := SaturatingAdd(tx.granted, credit))
  }

  function TopupFor(received: nat, granted: nat): nat {
    if received + TOPUP > granted && granted < MAX_STREAM_BYTES
    then if TOPUP < MAX_STREAM_BYTES - granted then TOPUP else MAX_STREAM_BYTES - granted
    else 0
  }

  function AcceptChunk(rx: Receiver, c: Chunk): (Receiver, Intake) {
    var topup := TopupFor(rx.received + c.len, rx.granted);
    (Receiver(c.seq_ + 1, rx.received + c.len, rx.granted + topup, false), Accept(topup))
  }

  function OnData(rx: Receiver, c: Chunk): (Receiver, Intake) {
    if c.seq_ == U64_MAX || rx.ended then (rx, Ignore)
    else if rx.next == 0 && rx.received == 0 then AcceptChunk(rx, c)
    else if c.seq_ != rx.next then (rx, Ignore)
    else if SaturatingAdd(rx.received, c.len) > rx.granted || SaturatingAdd(rx.received, c.len) > MAX_STREAM_BYTES
      then (rx.(ended := true), Over)
    else AcceptChunk(rx, c)
  }

  function Terminated(rx: Receiver): Receiver {
    rx.(ended := true)
  }

  // ---- the two windows as the objects each host updates ----

  class SenderLeg {
    var sendNext: nat
    var sendGranted: nat
    var sendSent: nat
    var ended: bool

    function View(): Sender
      reads this
    {
      Sender(sendNext, sendGranted, sendSent, ended)
    }

    constructor Bind(initialCredit: nat)
      ensures View() == Bound(initialCredit)
    {
      sendNext, sendGranted, sendSent, ended := 0, initialCredit, 0, false;
    }

    method RelayData(c: Chunk, quota: bool) returns (out: Relayed)
      modifies this
      ensures (View(), out) == Relay(old(View()), c, quota)
      ensures var live := !old(ended) && c.seq_ == old(sendNext);
        var fits := old(sendSent) + c.len <= old(sendGranted) || old(sendGranted) >= U64_MAX;
        && (out == Skipped <==> !live)
        && (out == OverWindow <==> live && !fits)
        && (out == QuotaMiss <==> live && fits && !quota)
        && (out == Forwarded <==> live && fits && quota)
        && sendNext == old(sendNext) + (if live then 1 else 0)
        && sendSent == old(sendSent) + (if out == Forwarded then c.len else 0)
        && (ended <==> old(ended) || out == OverWindow)
        && sendGranted == old(sendGranted)
    {
      if ended || c.seq_ != sendNext { return Skipped; }
      sendNext := sendNext + 1;
      if SaturatingAdd(sendSent, c.len) > sendGranted {
        ended := true;
        return OverWindow;
      }
      if !quota { return QuotaMiss; }
      sendSent := sendSent + c.len;
      return Forwarded;
    }

    method AddCredit(credit: nat)
      modifies this
      ensures View() == Credit(old(View()), credit)
      ensures sendNext == old(sendNext) && sendSent == old(sendSent) && ended == old(ended)
      ensures ended ==> sendGranted == old(sendGranted)
      ensures !ended && old(sendGranted) + credit <= U64_MAX ==> sendGranted == old(sendGranted) + credit
      ensures !ended && old(sendGranted) + credit > U64_MAX ==> sendGranted == U64_MAX
    {
      if !ended { sendGranted := SaturatingAdd(sendGranted, credit); }
    }
  }

  class ReceiverLeg {
    var nextSeq: nat
    var received: nat
    var granted: nat
    var ended: bool

    function View(): Receiver
      reads this
    {
      Receiver(nextSeq, received, granted, ended)
    }

    constructor ()
      ensures View() == FRESH_RECEIVER
    {
      nextSeq, received, granted, ended := 0, 0, INITIAL_GRANT, false;
    }

    method Take(c: Chunk) returns (topup: nat)
      requires !ended
      modifies this
      ensures (View(), Accept(topup)) == AcceptChunk(old(View()), c)
    {
      nextSeq := c.seq_ + 1;
      received := received + c.len;
      topup := 0;
      if received + TOPUP > granted && granted < MAX_STREAM_BYTES {
        topup := if TOPUP < MAX_STREAM_BYTES - granted then TOPUP else MAX_STREAM_BYTES - granted;
        granted := granted + topup;
      }
    }

    method OnStreamData(c: Chunk) returns (out: Intake)
      modifies this
      ensures (View(), out) == OnData(old(View()), c)
      ensures var live := !old(ended) && c.seq_ != U64_MAX;
        var first := old(nextSeq) == 0 && old(received) == 0;
        var fits := old(received) + c.len <= old(granted) && old(received) + c.len <= MAX_STREAM_BYTES;
        && (out.Accept? <==> live && (first || (c.seq_ == old(nextSeq) && fits)))
        && (out.Over? <==> live && !first && c.seq_ == old(nextSeq) && !fits)
        && (ended <==> old(ended) || out.Over?)
        && (!out.Accept? ==> nextSeq == old(nextSeq) && received == old(received) && granted == old(granted))
      ensures out.Accept? ==>
        && nextSeq == c.seq_ + 1 && received == old(received) + c.len && granted == old(granted) + out.topup
        && (if received + TOPUP <= old(granted) || old(granted) >= MAX_STREAM_BYTES then out.topup == 0
            else 0 < out.topup <= TOPUP && (out.topup == TOPUP || granted == MAX_STREAM_BYTES)
                 && granted <= MAX_STREAM_BYTES)
    {
      if c.seq_ == U64_MAX || ended { return Ignore; }
      if nextSeq == 0 && received == 0 {
        var topup := Take(c);
        return Accept(topup);
      }
      if c.seq_ != nextSeq { return Ignore; }
      if SaturatingAdd(received, c.len) > granted || SaturatingAdd(received, c.len) > MAX_STREAM_BYTES {
        ended := true;
        return Over;
      }
      var topup := Take(c);
      return Accept(topup);
    }

    /** From here on the leg takes nothing, whatever arrives. */
    method OnStreamTerminal()
      modifies this
      ensures View() == Terminated(old(View()))
      ensures forall frames :: Feed(View(), frames) == View()
    {
      ended := true;
      forall frames ensures Feed(View(), frames) == View() { TerminalIsFinal(View(), frames); }
    }
  }

  // ---- one leg over a channel ----

  /** `log` is everything ever forwarded: a chunk may be delivered any number of
      times, in any order, or never. `credits` are the credit frames still under
      way: each is delivered or lost once. `lo..hi` are the log positions accepted;
      `over` records an over-credit end. */
  datatype Leg = Leg(tx: Sender, rx: Receiver, log: seq<Chunk>, credits: seq<nat>, lo: nat, hi: nat, over: bool)

  datatype Step =
    | ComponentFrame(c: Chunk, quota: bool)
    | DeliverData(i: nat)
    | DeliverCredit(j: nat)
    | LoseCredit(j: nat)
    | EndSender
    | EndReceiver

  const START := Leg(Bound(INITIAL_GRANT), FRESH_RECEIVER, [], [], 0, 0, false)

  predicate Enabled(s: Leg, step: Step) {
    match step
    case ComponentFrame(c, _) => c.seq_ < U64_MAX
    case DeliverData(i) => i < |s.log|
    case DeliverCredit(j) => j < |s.credits|
    case LoseCredit(j) => j < |s.credits|
    case EndSender => true
    case EndReceiver => true
  }

  function Drop(s: seq<nat>, j: nat): seq<nat>
    requires j < |s|
  {
    s[..j] + s[j + 1..]
  }

  function Next(s: Leg, step: Step): Leg
    requires Enabled(s, step)
  {
    match step
    case ComponentFrame(c, quota) =>
      var (tx, out) := Relay(s.tx, c, quota);
      s.(tx := tx, log := if out == Forwarded then s.log + [c] else s.log)
    case DeliverData(i) =>
      var (rx, out) := OnData(s.rx, s.log[i]);
      match out {
        case Accept(topup) =>
          s.(rx := rx, credits := if topup > 0 then s.credits + [topup] else s.credits,
             lo := if s.lo == s.hi then i else s.lo, hi := i + 1)
        case Over => s.(rx := rx, over := true)
        case Ignore => s.(rx := rx)
      }
    case DeliverCredit(j) => s.(tx := Credit(s.tx, s.credits[j]), credits := Drop(s.credits, j))
    case LoseCredit(j) => s.(credits := Drop(s.credits, j))
    case EndSender => s.(tx := s.tx.(ended := true))
    case EndReceiver => s.(rx := Terminated(s.rx))
  }

  function Bytes(log: seq<Chunk>): nat {
    if log == [] then 0 else Bytes(log[..|log| - 1]) + log[|log| - 1].len
  }

  function Sum(s: seq<nat>): nat {
    if s == [] then 0 else Sum(s[..|s| - 1]) + s[|s| - 1]
  }

  lemma {:induction false} SumDrop(s: seq<nat>, j: nat)
    requires j < |s|
    ensures Sum(s) == Sum(Drop(s, j)) + s[j]
  {
    var n := |s| - 1;
    if j == n {
      assert Drop(s, j) == s[..n];
    } else {
      SumDrop(s[..n], j);
      assert Drop(s, j)[..n - 1] == Drop(s[..n], j);
      assert Drop(s, j)[n - 1] == s[n];
    }
  }

  lemma {:induction false} BytesOfSlice(log: seq<Chunk>, lo: nat, hi: nat)
    requires lo <= hi <= |log|
    ensures Bytes(log[lo..hi]) <= Bytes(log)
    decreases |log|
  {
    if hi < |log| {
      BytesOfSlice(log[..|log| - 1], lo, hi);
      assert log[..|log| - 1][lo..hi] == log[lo..hi];
    } else if lo < hi {
      BytesOfSlice(log[..|log| - 1], lo, hi - 1);
      var all := log[lo..hi];
      assert all[..|all| - 1] == log[lo..hi - 1] == log[..|log| - 1][lo..hi - 1];
      assert all[|all| - 1] == log[|log| - 1];
    } else {
      assert log[lo..hi] == [];
    }
  }

  lemma BytesOfNextSlice(log: seq<Chunk>, lo: nat, hi: nat)
    requires lo <= hi < |log|
    ensures Bytes(log[lo..hi + 1]) == Bytes(log[lo..hi]) + log[hi].len
  {
    assert log[lo..hi + 1][..hi - lo] == log[lo..hi];
  }

  ghost predicate Ascending(log: seq<Chunk>, next: nat) {
    && (forall i, j :: 0 <= i < j < |log| ==> log[i].seq_ < log[j].seq_)
    && (forall i :: 0 <= i < |log| ==> log[i].seq_ < next && log[i].seq_ < U64_MAX)
  }

  ghost predicate Piece(log: seq<Chunk>, lo: nat, hi: nat, received: nat, next: nat) {
    && lo <= hi <= |log|
    && received == Bytes(log[lo..hi])
    && (lo == hi ==> next == 0)
    && (lo < hi ==> next == log[hi - 1].seq_ + 1)
    && (forall j :: lo < j < hi ==> log[j].seq_ == log[j - 1].seq_ + 1)
  }

  /** What the receiver has is a contiguous piece of what was forwarded. */
  ghost predicate Tracks(s: Leg) {
    Piece(s.log, s.lo, s.hi, s.rx.received, s.rx.next)
  }

  ghost predicate Windows(s: Leg) {
    && s.tx.sent == Bytes(s.log) <= s.tx.granted
    && s.tx.granted + Sum(s.credits) <= s.rx.granted <= MAX_STREAM_BYTES
    && s.rx.received <= s.rx.granted
    && (s.rx.received + TOPUP <= s.rx.granted || s.rx.granted == MAX_STREAM_BYTES)
  }

  ghost predicate Inv(s: Leg) {
    Ascending(s.log, s.tx.next) && Tracks(s) && Windows(s) && !s.over
  }

  lemma SuccessorIsNext(log: seq<Chunk>, next: nat, hi: nat, i: nat)
    requires Ascending(log, next) && 0 < hi <= |log| && i < |log| && log[i].seq_ == log[hi - 1].seq_ + 1
    ensures i == hi
  {
    if hi < |log| { assert log[hi - 1].seq_ < log[hi].seq_; }
  }

  lemma AppendAscends(log: seq<Chunk>, next: nat, c: Chunk)
    requires Ascending(log, next) && c.seq_ == next < U64_MAX
    ensures Ascending(log + [c], next + 1)
  {
  }

  lemma AppendPiece(log: seq<Chunk>, c: Chunk, lo: nat, hi: nat, received: nat, next: nat)
    requires Piece(log, lo, hi, received, next)
    ensures Piece(log + [c], lo, hi, received, next)
  {
    assert (log + [c])[lo..hi] == log[lo..hi];
  }

  lemma BytesSnoc(log: seq<Chunk>, c: Chunk)
    ensures Bytes(log + [c]) == Bytes(log) + c.len
  {
    assert (log + [c])[..|log|] == log;
  }

  lemma SumSnoc(v: seq<nat>, x: nat)
    ensures Sum(v + [x]) == Sum(v) + x
  {
    assert (v + [x])[..|v|] == v;
  }

  lemma ComponentStep(s: Leg, c: Chunk, quota: bool)
    requires Inv(s) && c.seq_ < U64_MAX
    ensures Inv(Next(s, ComponentFrame(c, quota)))
  {
    hide Piece, Bytes, Sum;
    if Relay(s.tx, c, quota).1 == Forwarded {
      hide Ascending;
      AppendAscends(s.log, s.tx.next, c);
      AppendPiece(s.log, c, s.lo, s.hi, s.rx.received, s.rx.next);
      BytesSnoc(s.log, c);
    }
  }

  /** A delivered chunk the receiver takes is the next one in the log, or the
      first one it sees; either way it fits the window. */
  lemma DeliveredFits(s: Leg, i: nat)
    requires Inv(s) && i < |s.log|
    ensures !OnData(s.rx, s.log[i]).1.Over?
    ensures OnData(s.rx, s.log[i]).1.Accept? ==>
              && s.rx.received + s.log[i].len <= s.rx.granted
              && (s.lo < s.hi ==> i == s.hi)
  {
    var c := s.log[i];
    if s.lo == s.hi {
      assert s.log[s.lo..s.hi] == [];
      BytesOfSlice(s.log, i, i + 1);
      assert s.log[i..i + 1] == [c];
      assert [c][..0] == [];
      assert Bytes([c]) == c.len;
    } else if c.seq_ == s.rx.next {
      SuccessorIsNext(s.log, s.tx.next, s.hi, i);
      BytesOfNextSlice(s.log, s.lo, s.hi);
      BytesOfSlice(s.log, s.lo, s.hi + 1);
    }
  }

  lemma ExtendPiece(log: seq<Chunk>, lo: nat, hi: nat, received: nat, next: nat, i: nat)
    requires Piece(log, lo, hi, received, next) && i < |log|
    requires lo < hi ==> i == hi && log[i].seq_ == next
    ensures Piece(log, if lo == hi then i else lo, i + 1, received + log[i].len, log[i].seq_ + 1)
  {
    if lo == hi {
      assert log[lo..hi] == [] && log[i..i + 1] == [log[i]];
      assert [log[i]][..0] == [];
    } else {
      BytesOfNextSlice(log, lo, hi);
    }
  }

  lemma AcceptTracks(s: Leg, i: nat)
    requires Inv(s) && i < |s.log| && OnData(s.rx, s.log[i]).1.Accept?
    ensures Tracks(Next(s, DeliverData(i)))
  {
    DeliveredFits(s, i);
    assert s.lo < s.hi ==> s.log[i].seq_ == s.rx.next;
    hide Windows, Sum, Bytes, Ascending, Piece;
    ExtendPiece(s.log, s.lo, s.hi, s.rx.received, s.rx.next, i);
  }

  lemma AcceptKeepsWindows(s: Leg, i: nat)
    requires Inv(s) && i < |s.log| && OnData(s.rx, s.log[i]).1.Accept?
    ensures Windows(Next(s, DeliverData(i)))
  {
    hide Piece, Ascending, Bytes, Sum;
    DeliveredFits(s, i);
    SumSnoc(s.credits, OnData(s.rx, s.log[i]).1.topup);
  }

  lemma DataStep(s: Leg, i: nat)
    requires Inv(s) && i < |s.log|
    ensures Inv(Next(s, DeliverData(i)))
  {
    hide Bytes, Sum;
    DeliveredFits(s, i);
    if OnData(s.rx, s.log[i]).1.Accept? {
      AcceptTracks(s, i);
      AcceptKeepsWindows(s, i);
    }
  }

  lemma InvStep(s: Leg, step: Step)
    requires Inv(s) && Enabled(s, step)
    ensures Inv(Next(s, step))
  {
    hide Bytes, Relay, OnData;
    match step
    case ComponentFrame(c, quota) => ComponentStep(s, c, quota);
    case DeliverData(i) => DataStep(s, i);
    case DeliverCredit(j) => SumDrop(s.credits, j);
    case LoseCredit(j) => SumDrop(s.credits, j);
    case _ =>
  }

  ghost predicate Path(ss: seq<Leg>, steps: seq<Step>) {
    && |ss| == |steps| + 1
    && forall i :: 0 <= i < |steps| ==> Enabled(ss[i], steps[i]) && ss[i + 1] == Next(ss[i], steps[i])
  }

  ghost predicate Run(ss: seq<Leg>, steps: seq<Step>) {
    Path(ss, steps) && ss[0] == START
  }

  lemma {:induction false} AlwaysInv(ss: seq<Leg>, steps: seq<Step>, i: nat)
    requires Run(ss, steps) && i < |ss|
    ensures Inv(ss[i])
    decreases i
  {
    if i == 0 {
      assert START.log[0..0] == [];
    } else {
      AlwaysInv(ss, steps, i - 1);
      InvStep(ss[i - 1], steps[i - 1]);
    }
  }

  /** Whatever the channel loses, delays, reorders or repeats: accepted bytes
      never exceed sent bytes, those never exceed the sender's grant, that never
      exceeds the receiver's, and that never exceeds 1 MiB; so a sender obeying its
      window is never ended for over-credit, and the receiver's window is at least
      32 KiB open unless its grant is at the cap. */
  lemma CreditHolds(ss: seq<Leg>, steps: seq<Step>, i: nat)
    requires Run(ss, steps) && i < |ss|
    ensures var s := ss[i];
      && s.rx.received <= s.tx.sent <= s.tx.granted <= s.rx.granted <= MAX_STREAM_BYTES
      && !s.over
      && (s.rx.granted - s.rx.received >= TOPUP || s.rx.granted == MAX_STREAM_BYTES)
  {
    AlwaysInv(ss, steps, i);
    BytesOfSlice(ss[i].log, ss[i].lo, ss[i].hi);
  }

  /** What the receiver accepted is, byte for byte, one contiguous piece of what
      was forwarded: nothing twice, nothing out of order, nothing skipped. */
  lemma AcceptedIsContiguous(ss: seq<Leg>, steps: seq<Step>, i: nat)
    requires Run(ss, steps) && i < |ss|
    ensures var s := ss[i];
      && s.lo <= s.hi <= |s.log| && s.rx.received == Bytes(s.log[s.lo..s.hi])
      && (forall j :: s.lo < j < s.hi ==> s.log[j].seq_ == s.log[j - 1].seq_ + 1)
      && (s.lo < s.hi ==> s.rx.next == s.log[s.hi - 1].seq_ + 1)
  {
    AlwaysInv(ss, steps, i);
  }

  // ---- a channel that loses nothing ----

  /** Everything forwarded has been accepted and every credit has arrived. */
  ghost predicate Level(s: Leg) {
    && Inv(s) && !s.tx.ended && !s.rx.ended && s.credits == []
    && s.tx.granted == s.rx.granted && s.rx.received == s.tx.sent
    && s.tx.next == s.rx.next == |s.log| && s.lo == 0 && s.hi == |s.log|
  }

  /** A chunk within the window, offered with quota, delivered, and the credit for it
      delivered if there is one, is accepted; both ends stand level again. */
  lemma RoundArrives(s: Leg, len: nat) returns (ss: seq<Leg>, steps: seq<Step>)
    requires Level(s) && s.tx.next < U64_MAX && s.tx.sent + len <= s.tx.granted
    ensures Path(ss, steps) && |ss| == |steps| + 1 && ss[0] == s
    ensures var n := ss[|steps|];
      && Level(n) && n.log == s.log + [Chunk(s.tx.next, len)]
      && n.rx.received == s.rx.received + len
  {
    hide Ascending, Piece, Sum, Bytes;
    var c := Chunk(s.tx.next, len);
    var a := Next(s, ComponentFrame(c, true));
    InvStep(s, ComponentFrame(c, true));
    assert a.log[|s.log|] == c && a.log == s.log + [c];
    FirstIsFresh(s);
    var b := Next(a, DeliverData(|s.log|));
    InvStep(a, DeliverData(|s.log|));
    DeliveredFits(a, |s.log|);
    if b.credits == [] {
      ss, steps := [s, a, b], [ComponentFrame(c, true), DeliverData(|s.log|)];
    } else {
      InvStep(b, DeliverCredit(0));
      var d := Next(b, DeliverCredit(0));
      ss, steps := [s, a, b, d], [ComponentFrame(c, true), DeliverData(|s.log|), DeliverCredit(0)];
    }
  }

  lemma FirstIsFresh(s: Leg)
    requires Level(s)
    ensures s.lo == s.hi ==> s.rx.next == 0 && s.rx.received == 0
  {
    if s.lo == s.hi { assert s.log[s.lo..s.hi] == []; }
  }

  lemma PathJoins(ss: seq<Leg>, steps: seq<Step>, ss': seq<Leg>, steps': seq<Step>)
    requires Path(ss, steps) && Path(ss', steps') && ss'[0] == ss[|steps|]
    ensures Path(ss + ss'[1..], steps + steps') && |ss| == |steps| + 1 && |ss'| == |steps'| + 1
  {
    var all, todo := ss + ss'[1..], steps + steps';
    forall i | 0 <= i < |todo| ensures Enabled(all[i], todo[i]) && all[i + 1] == Next(all[i], todo[i]) {
      if i < |steps| {
        assert todo[i] == steps[i] && all[i] == ss[i] && all[i + 1] == ss[i + 1];
      } else {
        assert todo[i] == steps'[i - |steps|];
        assert all[i] == ss'[i - |steps|] && all[i + 1] == ss'[i - |steps| + 1];
      }
    }
  }

  /** A stream of chunks of at most 32 KiB, 1 MiB in all, arrives whole over a channel
      that delivers everything in order: the windows never stop it. */
  lemma {:induction false} EverythingArrives(lens: seq<nat>) returns (ss: seq<Leg>, steps: seq<Step>)
    requires Sum(lens) <= MAX_STREAM_BYTES && |lens| < U64_MAX
    requires forall k :: 0 <= k < |lens| ==> lens[k] <= TOPUP
    ensures Run(ss, steps) && |ss| == |steps| + 1
    ensures var n := ss[|steps|];
      && Level(n) && n.rx.received == Sum(lens)
      && n.log == seq(|lens|, k requires 0 <= k < |lens| => Chunk(k, lens[k]))
  {
    hide Level, Bytes, Path, Enabled, Next;
    if lens == [] {
      StartsLevel();
      ss, steps := [START], [];
    } else {
      var k := |lens| - 1;
      ss, steps := EverythingArrives(lens[..k]);
      PathLength(ss, steps);
      var n := ss[|steps|];
      LevelIs(n);
      OpenEnough(n, lens[k]);
      var more, todo := RoundArrives(n, lens[k]);
      PathJoins(ss, steps, more, todo);
      ss, steps := ss + more[1..], steps + todo;
    }
  }

  lemma StartsLevel()
    ensures Level(START) && Path([START], [])
  {
    assert START.log[0..0] == [];
  }

  lemma PathLength(ss: seq<Leg>, steps: seq<Step>)
    requires Path(ss, steps)
    ensures |ss| == |steps| + 1
  {}

  lemma LevelIs(s: Leg)
    requires Level(s)
    ensures s.tx.next == |s.log|
  {}

  /** The window of a level leg is 32 KiB open, or open to the cap. */
  lemma OpenEnough(s: Leg, len: nat)
    requires Level(s) && len <= TOPUP && s.rx.received + len <= MAX_STREAM_BYTES
    ensures s.tx.sent + len <= s.tx.granted
  {
  }

  // ---- a sender that ignores its window ----

  function Feed(rx: Receiver, frames: seq<Chunk>): Receiver {
    if frames == [] then rx else OnData(Feed(rx, frames[..|frames| - 1]), frames[|frames| - 1]).0
  }

  /** Once a first chunk is in, whether the window holds never changes. */
  lemma VerdictSticks(rx: Receiver, c: Chunk)
    requires rx.next > 0 && rx.granted <= MAX_STREAM_BYTES
    ensures var n := OnData(rx, c).0;
      && n.next > 0 && n.granted <= MAX_STREAM_BYTES
      && (n.received <= n.granted <==> rx.received <= rx.granted)
      && (n.received <= MAX_STREAM_BYTES <==> rx.received <= MAX_STREAM_BYTES)
  {
  }

  /** The first chunk of a leg is taken without looking at the window. For every
      sequence of frames, obeying the window or not, the receiver stays within its
      own grant exactly when that chunk is at most 96 KiB, and within the 1 MiB cap
      exactly when that chunk is. */
  lemma {:induction false} FirstChunkDecides(frames: seq<Chunk>)
    requires frames != [] && frames[0].seq_ < U64_MAX
    ensures var rx := Feed(FRESH_RECEIVER, frames);
      && rx.next > 0 && rx.granted <= MAX_STREAM_BYTES
      && (rx.received <= rx.granted <==> frames[0].len <= INITIAL_GRANT + TOPUP)
      && (rx.received <= MAX_STREAM_BYTES <==> frames[0].len <= MAX_STREAM_BYTES)
  {
    if |frames| == 1 {
      assert frames[..0] == [];
    } else {
      var front := frames[..|frames| - 1];
      FirstChunkDecides(front);
      VerdictSticks(Feed(FRESH_RECEIVER, front), frames[|frames| - 1]);
    }
  }

  /** Such a first chunk exists: one byte over 96 KiB fits a frame and is taken. */
  lemma FirstChunkOverruns()
    ensures var rx := Feed(FRESH_RECEIVER, [Chunk(0, INITIAL_GRANT + TOPUP + 1)]);
      rx.granted < rx.received < MAX_STREAM_BYTES && !rx.ended
  {
    var frames := [Chunk(0, INITIAL_GRANT + TOPUP + 1)];
    FirstChunkDecides(frames);
    assert frames[..0] == [];
  }

  /** After a terminal the receiver takes nothing more, whatever arrives. */
  lemma {:induction false} TerminalIsFinal(rx: Receiver, frames: seq<Chunk>)
    ensures Feed(Terminated(rx), frames) == Terminated(rx)
  {
    if frames != [] { TerminalIsFinal(rx, frames[..|frames| - 1]); }
  }
}
