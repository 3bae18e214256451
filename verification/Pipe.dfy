// Pipes (pipe.c): a ring of PIPESIZE bytes with counters that wrap modulo 2^32,
// as a byte queue.
module Pipe {
  import opened Blocks

  const PIPESIZE: nat := 512

  // accepted and delivered are all the bytes ever written and read.
  datatype State = State(data: seq<byte>, nread: nat, nwrite: nat, accepted: seq<byte>, delivered: seq<byte>)

  predicate Full(s: State) { s.nwrite == (s.nread + PIPESIZE) % TWO_TO_THE_32 }

  predicate Empty(s: State) { s.nread == s.nwrite }

  // What has been read is a prefix of what has been written, the rest is in
  // the ring, and the counters are the two lengths modulo 2^32.
  ghost predicate Inv(s: State) {
    && |s.data| == PIPESIZE
    && s.delivered <= s.accepted && |s.accepted| <= |s.delivered| + PIPESIZE
    && s.nread == |s.delivered| % TWO_TO_THE_32 && s.nwrite == |s.accepted| % TWO_TO_THE_32
    && (forall k | |s.delivered| <= k < |s.accepted| :: s.data[k % PIPESIZE] == s.accepted[k])
  }

  // The tests on the wrapped counters are right about the queue.
  lemma FullExactly(s: State)
    requires Inv(s)
    ensures Full(s) <==> |s.accepted| == |s.delivered| + PIPESIZE
  {
    var a, d := |s.accepted|, |s.delivered|;
    assert (d % TWO_TO_THE_32 + PIPESIZE) % TWO_TO_THE_32 == (d + PIPESIZE) % TWO_TO_THE_32;
    SameModulo(d + PIPESIZE - a, a);
  }

  lemma EmptyExactly(s: State)
    requires Inv(s)
    ensures Empty(s) <==> s.accepted == s.delivered
  {
    SameModulo(|s.accepted| - |s.delivered|, |s.delivered|);
    if |s.accepted| == |s.delivered| { assert s.accepted == s.delivered; }
  }

  // Two numbers less than 2^32 apart that agree modulo 2^32 are equal.
  lemma SameModulo(x: nat, a: nat)
    requires x <= PIPESIZE
    ensures (a + x) % TWO_TO_THE_32 == a % TWO_TO_THE_32 <==> x == 0
  {
  }

  // One byte written.
  function Put(s: State, b: byte): State
    requires |s.data| == PIPESIZE
  {
    s.(data := s.data[s.nwrite % PIPESIZE := b], nwrite := (s.nwrite + 1) % TWO_TO_THE_32, accepted := s.accepted + [b])
  }

  // One byte read.
  function Get(s: State): State
    requires |s.data| == PIPESIZE
  {
    s.(nread := (s.nread + 1) % TWO_TO_THE_32, delivered := s.delivered + [s.data[s.nread % PIPESIZE]])
  }

  lemma Slots(a: nat)
    ensures a % TWO_TO_THE_32 % PIPESIZE == a % PIPESIZE
            && (a % TWO_TO_THE_32 + 1) % TWO_TO_THE_32 == (a + 1) % TWO_TO_THE_32
  {
    assert TWO_TO_THE_32 == PIPESIZE * 0x80_0000;
    var q := a / TWO_TO_THE_32;
    assert a == a % TWO_TO_THE_32 + PIPESIZE * (0x80_0000 * q);
  }

  lemma PutKeeps(s: State, b: byte)
    requires Inv(s) && !Full(s)
    ensures Inv(Put(s, b))
  {
    FullExactly(s);
    Slots(|s.accepted|);
    var s' := Put(s, b);
    forall k | |s'.delivered| <= k < |s'.accepted| ensures s'.data[k % PIPESIZE] == s'.accepted[k] {
      if k < |s.accepted| {
        OtherSlot(k, |s.accepted|);
      }
    }
  }

  // Positions less than PIPESIZE apart have different slots.
  lemma OtherSlot(k: nat, a: nat)
    requires k < a < k + PIPESIZE
    ensures k % PIPESIZE != a % PIPESIZE
  {
  }

  lemma GetKeeps(s: State)
    requires Inv(s) && !Empty(s)
    ensures Inv(Get(s)) && Get(s).delivered == s.accepted[..|s.delivered| + 1]
  {
    EmptyExactly(s);
    Slots(|s.delivered|);
    assert |s.delivered| < |s.accepted|;
    assert s.data[|s.delivered| % PIPESIZE] == s.accepted[|s.delivered|];
  }

  // --- every interleaving of readers and writers, byte by byte ---

  datatype Step = Write(b: byte) | Read

  ghost predicate Runs(s: State, steps: seq<Step>, s': State)
    decreases |steps|
  {
    if steps == [] then s' == s
    else if |s.data| != PIPESIZE then false
    else match steps[0]
      case Write(b) => !Full(s) && Runs(Put(s, b), steps[1..], s')
      case Read => !Empty(s) && Runs(Get(s), steps[1..], s')
  }

  lemma {:induction false} RunKeeps(s: State, steps: seq<Step>, s': State)
    requires Inv(s) && Runs(s, steps, s')
    ensures Inv(s')
    decreases |steps|
  {
    if steps != [] {
      match steps[0] {
        case Write(b) =>
          PutKeeps(s, b);
          RunKeeps(Put(s, b), steps[1..], s');
        case Read =>
          GetKeeps(s);
          RunKeeps(Get(s), steps[1..], s');
      }
    }
  }

  function Written(steps: seq<Step>): seq<byte> {
    if steps == [] then [] else (if steps[0].Write? then [steps[0].b] else []) + Written(steps[1..])
  }

  lemma {:induction false} AcceptedIsWritten(s: State, steps: seq<Step>, s': State)
    requires Runs(s, steps, s')
    ensures s'.accepted == s.accepted + Written(steps)
    decreases |steps|
  {
    if steps != [] {
      match steps[0] {
        case Write(b) =>
          AcceptedIsWritten(Put(s, b), steps[1..], s');
          assert s.accepted + [b] + Written(steps[1..]) == s.accepted + ([b] + Written(steps[1..]));
        case Read =>
          AcceptedIsWritten(Get(s), steps[1..], s');
      }
    }
  }

  // A new pipe, however it is used, hands on the bytes written in order and
  // never holds more than PIPESIZE.
  lemma Fifo(s: State, steps: seq<Step>, s': State)
    requires |s.data| == PIPESIZE && s == State(s.data, 0, 0, [], []) && Runs(s, steps, s')
    ensures s'.delivered <= Written(steps) && |Written(steps)| <= |s'.delivered| + PIPESIZE
  {
    RunKeeps(s, steps, s');
    AcceptedIsWritten(s, steps, s');
  }

  // --- the calls ---

  datatype Outcome = Done | Slept | Failed

  class Pipe {
    const data: array<byte>
    var nread: nat
    var nwrite: nat
    var readopen: bool
    var writeopen: bool
    ghost var accepted: seq<byte>
    ghost var delivered: seq<byte>

    ghost function S(): State
      reads this, data
    {
      State(data[..], nread, nwrite, accepted, delivered)
    }

    constructor ()
      ensures Inv(S()) && accepted == [] == delivered && readopen && writeopen && fresh(data)
    {
      data := new byte[PIPESIZE];
      nread, nwrite := 0, 0;
      readopen, writeopen := true, true;
      accepted, delivered := [], [];
    }

    // pipewrite from byte i on, with the lock held, until it returns or sleeps.
    method PipeWrite(addr: seq<byte>, i: nat, killed: bool) returns (j: nat, r: Outcome)
      requires Inv(S()) && i <= |addr|
      modifies this`nwrite, this`accepted, data
      ensures Inv(S()) && i <= j <= |addr|
      ensures accepted == old(accepted) + addr[i..j] && delivered == old(delivered)
      ensures r == Done <==> j == |addr|
      ensures r != Done ==> Full(S()) && (r == Failed <==> !readopen || killed)
    {
      j := i;
      while j < |addr|
        invariant Inv(S()) && i <= j <= |addr|
        invariant accepted == old(accepted) + addr[i..j] && delivered == old(delivered)
      {
        if nwrite == (nread + PIPESIZE) % TWO_TO_THE_32 {
          if !readopen || killed { return j, Failed; }
          return j, Slept;
        }
        PutKeeps(S(), addr[j]);
        ghost var s := S();
        data[nwrite % PIPESIZE] := addr[j];
        nwrite := (nwrite + 1) % TWO_TO_THE_32;
        accepted := accepted + [addr[j]];
        assert S() == Put(s, addr[j]);
        j := j + 1;
      }
      return j, Done;
    }

    // piperead with the lock held, until it returns or sleeps.
    method PipeRead(n: nat, killed: bool) returns (out: seq<byte>, r: Outcome)
      requires Inv(S())
      modifies this`nread, this`delivered
      ensures Inv(S()) && accepted == old(accepted) && delivered == old(delivered) + out && |out| <= n
      ensures r == Done <==> !old(Empty(S())) || !writeopen
      ensures r != Done ==> out == [] && (r == Failed <==> killed)
      ensures r == Done ==> |out| == n || Empty(S())
    {
      out := [];
      if nread == nwrite && writeopen {
        if killed { return out, Failed; }
        return out, Slept;
      }
      while |out| < n
        invariant Inv(S()) && |out| <= n && accepted == old(accepted) && delivered == old(delivered) + out
        decreases n - |out|
      {
        if nread == nwrite { break; }
        GetKeeps(S());
        out := out + [data[nread % PIPESIZE]];
        delivered := delivered + [data[nread % PIPESIZE]];
        nread := (nread + 1) % TWO_TO_THE_32;
      }
      return out, Done;
    }
  }
}
