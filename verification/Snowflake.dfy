/** snowflake: 64-bit ids from a millisecond clock, two machine numbers and a sequence number. */
module Snowflake {
  import opened Common

  const MAX_WORKER_ID: int := 31
  const MAX_DATACENTER_ID: int := 31
  const SEQUENCE_RANGE: int := 0x1000
  const WORKER_UNIT: int := 0x1000        // 1 << 12
  const DATACENTER_UNIT: int := 0x2_0000  // 1 << 17
  const TIMESTAMP_UNIT: int := 0x40_0000  // 1 << 22
  const TIMESTAMP_RANGE: int := 0x200_0000_0000  // 1 << 41

  /** The parts of an id: milliseconds since the epoch, datacenter, worker, sequence. */
  datatype Parts = Parts(time: int, datacenter: int, worker: int, sequence: int)

  predicate InRange(p: Parts) {
    && 0 <= p.time < TIMESTAMP_RANGE && 0 <= p.datacenter <= MAX_DATACENTER_ID
    && 0 <= p.worker <= MAX_WORKER_ID && 0 <= p.sequence < SEQUENCE_RANGE
  }

  /** The shifted parts have no bit in common, so that or-ing them is adding them; see OrIsSum. */
  function Pack(p: Parts): int {
    p.time * TIMESTAMP_UNIT + p.datacenter * DATACENTER_UNIT + p.worker * WORKER_UNIT + p.sequence
  }

  function Unpack(id: int): Parts {
    Parts(id / TIMESTAMP_UNIT, id / DATACENTER_UNIT % 32, id / WORKER_UNIT % 32, id % SEQUENCE_RANGE)
  }

  /** On 64-bit words: or-ing the shifted parts is adding their multiples, and the parts can be read back. */
  lemma OrIsSum(time: bv64, datacenter: bv64, worker: bv64, sequence: bv64)
    requires time < 0x200_0000_0000 && datacenter < 32 && worker < 32 && sequence < 0x1000
    ensures var id := (time << 22) | (datacenter << 17) | (worker << 12) | sequence;
            && id == time * 0x40_0000 + datacenter * 0x2_0000 + worker * 0x1000 + sequence
            && id < 0x8000_0000_0000_0000
            && id >> 22 == time && (id >> 17) & 31 == datacenter && (id >> 12) & 31 == worker && id & 0xFFF == sequence
  {
  }

  lemma UnpackUndoesPack(p: Parts)
    requires InRange(p)
    ensures 0 <= Pack(p) < 0x8000_0000_0000_0000 && Unpack(Pack(p)) == p
    ensures Pack(p) / 0x40_0000 == p.time && Pack(p) / 0x2_0000 % 32 == p.datacenter
    ensures Pack(p) / 0x1000 % 32 == p.worker && Pack(p) % 0x1000 == p.sequence
  {
    var upper := p.time * 32 + p.datacenter;
    var middle := upper * 32 + p.worker;
    assert Pack(p) == middle * WORKER_UNIT + p.sequence;
    assert Pack(p) / WORKER_UNIT == middle;
    assert Pack(p) / DATACENTER_UNIT == upper;
  }

  lemma PackUndoesUnpack(id: int)
    requires 0 <= id < TIMESTAMP_RANGE * TIMESTAMP_UNIT
    ensures InRange(Unpack(id)) && Pack(Unpack(id)) == id
  {
    var middle := id / WORKER_UNIT;
    var upper := middle / 32;
    assert upper == id / DATACENTER_UNIT;
    assert upper / 32 == id / TIMESTAMP_UNIT;
  }

  datatype State = State(last: int, worker: int, datacenter: int, sequence: int)

  /** One call of nextid: its first reading of the clock and, when it has to wait, the reading it stops at. */
  datatype Reading = Reading(first: int, waited: int)

  predicate Exhausted(s: State, r: Reading) {
    s.last == r.first && (s.sequence + 1) % SEQUENCE_RANGE == 0
  }

  function Next(s: State, r: Reading): State {
    s.(last := if Exhausted(s, r) then r.waited else r.first,
       sequence := if s.last == r.first then (s.sequence + 1) % SEQUENCE_RANGE else 0)
  }

  /** The id handed out by the call that led to state s. */
  function IdOf(s: State, epoch: int): int {
    Pack(Parts(s.last - epoch, s.datacenter, s.worker, s.sequence))
  }

  ghost predicate Ready(s: State) {
    0 <= s.sequence < SEQUENCE_RANGE && 0 <= s.worker <= MAX_WORKER_ID && 0 <= s.datacenter <= MAX_DATACENTER_ID
  }

  predicate InWindow(s: State, epoch: int) {
    0 <= s.last - epoch < TIMESTAMP_RANGE
  }

  /** A call returns a larger id than the call before exactly when the clock has not stepped back in between. */
  lemma NextIdIsLargerIff(s: State, r: Reading, epoch: int)
    requires Ready(s) && InWindow(s, epoch) && InWindow(Next(s, r), epoch)
    requires Exhausted(s, r) ==> r.waited > s.last
    ensures Ready(Next(s, r))
    ensures IdOf(Next(s, r), epoch) > IdOf(s, epoch) <==> r.first >= s.last
  {
  }

  /** The sequence number and the timestamp of the next id; the 4096 ids of a millisecond are used up first. */
  lemma NextSequence(s: State, r: Reading)
    requires Ready(s)
    ensures var t := Next(s, r);
            if r.first != s.last then t.last == r.first && t.sequence == 0
            else if s.sequence == 4095 then t.last == r.waited && t.sequence == 0
            else t.last == s.last && t.sequence == s.sequence + 1
  {
  }

  /** A run of one initialised generator under a clock that does not step back. */
  ghost predicate IsRun(states: seq<State>, readings: seq<Reading>, epoch: int) {
    && |states| == |readings| + 1
    && Ready(states[0]) && states[0].last == -1
    && (forall i :: 0 <= i < |readings| ==> IsCall(states[i], readings[i], states[i + 1], epoch))
  }

  ghost predicate IsCall(s: State, r: Reading, t: State, epoch: int) {
    t == Next(s, r) && r.first >= s.last && (Exhausted(s, r) ==> r.waited > s.last) && InWindow(t, epoch)
  }

  lemma {:induction false} RunStaysReady(states: seq<State>, readings: seq<Reading>, epoch: int, n: nat)
    requires IsRun(states, readings, epoch) && n < |states|
    ensures Ready(states[n])
    ensures states[n].worker == states[0].worker && states[n].datacenter == states[0].datacenter
    ensures n > 0 ==> InWindow(states[n], epoch)
  {
    if n > 0 {
      RunStaysReady(states, readings, epoch, n - 1);
      assert IsCall(states[n - 1], readings[n - 1], states[n], epoch);
    }
  }

  /** Each call of a run goes on with the sequence in the same millisecond and restarts it in a later one. */
  lemma CallCounts(states: seq<State>, readings: seq<Reading>, epoch: int, n: nat)
    requires IsRun(states, readings, epoch) && n < |readings|
    ensures states[n + 1].last >= states[n].last
    ensures states[n + 1].sequence == if states[n + 1].last == states[n].last then states[n].sequence + 1 else 0
  {
    RunStaysReady(states, readings, epoch, n);
    assert IsCall(states[n], readings[n], states[n + 1], epoch);
    NextSequence(states[n], readings[n]);
  }

  /**
   * The sequence numbers of a millisecond follow one another without a gap, from 0 in every
   * millisecond that the run enters.
   */
  lemma {:induction false} SequenceCountsWithinMillisecond(
    states: seq<State>, readings: seq<Reading>, epoch: int, i: nat, j: nat)
    requires IsRun(states, readings, epoch) && i < j < |states|
    ensures states[i].last <= states[j].last
    ensures states[i].last == states[j].last ==> states[j].sequence == states[i].sequence + (j - i)
    ensures states[j - 1].last < states[j].last ==> states[j].sequence == 0
    decreases j
  {
    CallCounts(states, readings, epoch, j - 1);
    if i < j - 1 {
      SequenceCountsWithinMillisecond(states, readings, epoch, i, j - 1);
    }
  }

  /** The ids of one generator strictly increase, through exhausted sequences included. */
  lemma {:induction false} IdsStrictlyIncrease(states: seq<State>, readings: seq<Reading>, epoch: int, i: nat, j: nat)
    requires IsRun(states, readings, epoch) && 1 <= i < j < |states|
    ensures IdOf(states[i], epoch) < IdOf(states[j], epoch)
    decreases j
  {
    RunStaysReady(states, readings, epoch, j - 1);
    assert IsCall(states[j - 1], readings[j - 1], states[j], epoch);
    NextIdIsLargerIff(states[j - 1], readings[j - 1], epoch);
    if i < j - 1 {
      IdsStrictlyIncrease(states, readings, epoch, i, j - 1);
    }
  }

  /** Generators with different machine numbers never share an id. */
  lemma GeneratorsNeverCollide(
    a: seq<State>, ra: seq<Reading>, b: seq<State>, rb: seq<Reading>, epoch: int, i: nat, j: nat)
    requires IsRun(a, ra, epoch) && IsRun(b, rb, epoch) && 1 <= i < |a| && 1 <= j < |b|
    requires a[0].worker != b[0].worker || a[0].datacenter != b[0].datacenter
    ensures IdOf(a[i], epoch) != IdOf(b[j], epoch)
  {
    RunStaysReady(a, ra, epoch, i);
    RunStaysReady(b, rb, epoch, j);
    UnpackUndoesPack(Parts(a[i].last - epoch, a[i].datacenter, a[i].worker, a[i].sequence));
    UnpackUndoesPack(Parts(b[j].last - epoch, b[j].datacenter, b[j].worker, b[j].sequence));
  }

  class Generator {
    const epoch: int
    var lastTimestamp: int
    var workerId: int
    var datacenterId: int
    var sequence: int

    ghost function View(): State
      reads this
    {
      State(lastTimestamp, workerId, datacenterId, sequence)
    }

    constructor (epoch: int)
      ensures View() == State(-1, 0, 0, 0) && this.epoch == epoch
    {
      this.epoch := epoch;
      lastTimestamp, workerId, datacenterId, sequence := -1, 0, 0, 0;
    }

    method Init(workerId: int, datacenterId: int) returns (r: Result<(), string>)
      modifies this`workerId, this`datacenterId
      ensures r.Success? <==> 0 <= workerId <= 31 && 0 <= datacenterId <= 31
      ensures View() == if r.Success? then old(View()).(worker := workerId, datacenter := datacenterId) else old(View())
    {
      if workerId > MAX_WORKER_ID || workerId < 0 {
        return Failure("worker Id can't be greater than 31 or less than 0");
      }
      if datacenterId > MAX_DATACENTER_ID || datacenterId < 0 {
        return Failure("datacenter Id can't be greater than 31 or less than 0");
      }
      this.workerId := workerId;
      this.datacenterId := datacenterId;
      return Success(());
    }

    /** The clock is the sequence of readings it will give; a call that waits needs one past the last timestamp. */
    method NextId(clock: seq<int>) returns (id: int, ghost r: Reading)
      requires Ready(View()) && clock != []
      requires clock[0] == lastTimestamp && (sequence + 1) % SEQUENCE_RANGE == 0 ==>
                 exists i :: 1 <= i < |clock| && clock[i] > lastTimestamp
      modifies this`lastTimestamp, this`sequence
      ensures r.first == clock[0] && (Exhausted(old(View()), r) ==> r.waited > old(lastTimestamp))
      ensures View() == Next(old(View()), r)
      ensures id == IdOf(View(), epoch)
    {
      var timestamp := clock[0];
      r := Reading(timestamp, timestamp);
      if lastTimestamp == timestamp {
        sequence := (sequence + 1) % SEQUENCE_RANGE;
        if sequence == 0 {
          timestamp := WaitNextMillis(lastTimestamp, clock[1..]);
          r := Reading(clock[0], timestamp);
        }
      } else {
        sequence := 0;
      }
      lastTimestamp := timestamp;
      id := (timestamp - epoch) * TIMESTAMP_UNIT + datacenterId * DATACENTER_UNIT + workerId * WORKER_UNIT + sequence;
    }

    /** Spins until the clock has passed last. */
    method WaitNextMillis(last: int, clock: seq<int>) returns (timestamp: int)
      requires exists i :: 0 <= i < |clock| && clock[i] > last
      ensures exists i ::
                0 <= i < |clock| && timestamp == clock[i] > last && forall j :: 0 <= j < i ==> clock[j] <= last
    {
      var i := 0;
      timestamp := clock[0];
      while timestamp <= last
        invariant 0 <= i < |clock| && timestamp == clock[i]
        invariant forall j :: 0 <= j < i ==> clock[j] <= last
        decreases |clock| - i
      {
        assert exists k :: i < k < |clock| && clock[k] > last;
        i := i + 1;
        timestamp := clock[i];
      }
    }
  }
}
