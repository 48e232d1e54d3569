/** The abortable read over mutable chunks; each handler is one step of the event machine. */
module ResponseReader {
  import opened ByteArrays
  import opened Bytes
  import opened StreamReader
  import opened Wrappers

  /** What makes a heap the wiped form of another. */
  lemma IsWipe(heap: seq<seq<byte>>, now: seq<seq<byte>>, n: nat)
    requires n <= |heap| == |now|
    requires forall i | 0 <= i < n :: now[i] == Zeros(|heap[i]|)
    requires forall i | n <= i < |heap| :: now[i] == heap[i]
    ensures now == Wipe(heap, n)
  {
    hide Zeros;
  }

  lemma StillUnaliased(chunks: seq<array<byte>>, chunk: array<byte>)
    requires Unaliased(chunks) && chunk !in chunks
    ensures Unaliased(chunks + [chunk])
  {
  }

  class Reader {
    var phase: Phase
    var aborted: bool
    var listening: bool
    var pending: bool
    var settlement: Option<Settlement>
    var chunks: seq<array<byte>>
    var part: seq<array<byte>>
    var total: nat
    ghost var arrived: seq<array<byte>>
    ghost var original: seq<seq<byte>>

    ghost function Abstract(): State
      reads this, arrived
    {
      State(phase, aborted, listening, pending, settlement, Contents(arrived), original, |chunks|, total)
    }

    /** The list holds the first arrivals, and an unread part is the one behind them. */
    ghost predicate Valid()
      reads this, arrived
    {
      && Inv(Abstract())
      && Unaliased(arrived)
      && chunks == arrived[..|chunks|]
      && part == (if phase.Reading? && settlement.Some? && settlement.value.Part? then [arrived[|chunks|]] else [])
    }

    /** What the handlers use of validity. */
    lemma Outline()
      requires Valid()
      ensures |chunks| <= |arrived| && Unaliased(arrived) && chunks == arrived[..|chunks|]
      ensures phase.Reading? ==> total == Total(Contents(chunks)) && Contents(chunks) == Contents(arrived)[..|chunks|]
      ensures phase.Reading? && settlement.Some? && settlement.value.Part? ==>
                |arrived| == |chunks| + 1 && part == [arrived[|chunks|]] && settlement.value.chunk == |chunks|
    {
      hide Concat, Total, Inv;
      InvOutline(Abstract());
      assert Contents(chunks) == Contents(arrived)[..|chunks|];
    }

    constructor (aborted: bool)
      ensures Valid() && arrived == [] && Abstract() == Start(aborted)
    {
      phase, this.aborted := Reading, aborted;
      listening, pending := !aborted, !aborted;
      settlement := if aborted then Some(Rejected) else None;
      chunks, part, total := [], [], 0;
      arrived, original := [], [];
      new;
      assert Contents(arrived) == [];
      StartKeepsInv(aborted);
    }

    /** The pending read answers with a chunk: the promise's value, or, too late, zeros. */
    method OnChunk(chunk: array<byte>)
      requires Valid() && pending && chunk !in arrived
      modifies this, chunk
      ensures Valid() && arrived == old(arrived) + [chunk]
      ensures Abstract() == Step(old(Abstract()), Deliver(old(chunk[..])))
    {
      hide Concat, Total, Inv, StreamReader.OnResume, Call, Wipe, Zeros, Unaliased;
      ghost var before, bytes := Abstract(), chunk[..];
      InvOutline(before);
      StepKeepsInv(before, Deliver(bytes));
      StillUnaliased(arrived, chunk);
      if settlement.Some? {
        Late(chunk);
      } else {
        OnTime(chunk);
      }
    }

    method Late(chunk: array<byte>)
      requires settlement.Some? && chunk !in arrived
      modifies this`pending, this`original, this`arrived, chunk
      ensures arrived == old(arrived) + [chunk]
      ensures Abstract() == OnDeliver(old(Abstract()), old(chunk[..]))
    {
      hide Zeros;
      ghost var heap := Contents(arrived);
      pending := false;
      original := original + [chunk[..]];
      Fill(chunk);
      arrived := arrived + [chunk];
      assert Contents(arrived) == heap + [Zeros(chunk.Length)];
    }

    method OnTime(chunk: array<byte>)
      requires settlement.None? && |arrived| == |chunks|
      modifies this`pending, this`original, this`arrived, this`settlement, this`listening, this`part
      ensures arrived == old(arrived) + [chunk] && part == [chunk]
      ensures Abstract() == OnDeliver(old(Abstract()), chunk[..])
    {
      ghost var heap := Contents(arrived);
      pending := false;
      original := original + [chunk[..]];
      settlement, listening := Some(Part(|chunks|)), false;
      part := [chunk];
      arrived := arrived + [chunk];
      assert Contents(arrived) == heap + [chunk[..]];
    }

    method OnEnd()
      requires Valid() && pending
      modifies this
      ensures Valid() && arrived == old(arrived)
      ensures Abstract() == Step(old(Abstract()), End)
    {
      hide Concat, Total;
      StepKeepsInv(Abstract(), End);
      pending := false;
      if settlement.None? {
        settlement, listening := Some(Ended), false;
      }
    }

    method OnError()
      requires Valid() && pending
      modifies this
      ensures Valid() && arrived == old(arrived)
      ensures Abstract() == Step(old(Abstract()), Event.Fail)
    {
      hide Concat, Total;
      StepKeepsInv(Abstract(), Event.Fail);
      pending := false;
      if settlement.None? {
        settlement, listening := Some(Rejected), false;
      }
    }

    method OnAbort()
      requires Valid() && !aborted
      modifies this
      ensures Valid() && arrived == old(arrived)
      ensures Abstract() == Step(old(Abstract()), Abort)
    {
      hide Concat, Total;
      StepKeepsInv(Abstract(), Abort);
      if listening {
        settlement, listening := Some(Rejected), false;
      }
      aborted := true;
    }

    /** The loop takes the settled promise: keep the part and read on, assemble, or give up. */
    method OnResume()
      requires Valid() && phase.Reading? && settlement.Some?
      modifies this, arrived
      ensures Valid() && arrived == old(arrived)
      ensures Abstract() == Step(old(Abstract()), Resume)
    {
      hide Concat, Total, Inv, Call, Wipe;
      StepKeepsInv(Abstract(), Resume);
      match settlement.value
      case Part(_) => TakePart();
      case Ended => Finish();
      case Rejected => GiveUp();
    }

    /** Overwrites every chunk of the list. */
    method OverwriteList()
      requires Unaliased(arrived) && |chunks| <= |arrived| && chunks == arrived[..|chunks|]
      modifies arrived
      ensures Contents(arrived) == Wipe(old(Contents(arrived)), |chunks|)
    {
      hide Wipe, Zeros;
      ghost var heap := Contents(arrived);
      FillAll(chunks);
      IsWipe(heap, Contents(arrived), |chunks|);
    }

    method GiveUp()
      requires Valid() && phase.Reading?
      modifies this`phase, arrived
      ensures |chunks| <= |arrived| && phase == Failed && Contents(arrived) == Wipe(old(Contents(arrived)), |chunks|)
    {
      hide Valid, Wipe;
      Outline();
      OverwriteList();
      phase := Failed;
    }

    method Finish()
      requires Valid() && phase.Reading? && settlement == Some(Ended)
      modifies this`phase, arrived
      ensures |chunks| <= |arrived| && Contents(arrived) == Wipe(old(Contents(arrived)), |chunks|)
      ensures phase == if aborted then Failed else Parsed(Concat(old(Contents(arrived))[..|chunks|]))
    {
      hide Valid, Wipe, Concat, Total;
      Outline();
      if aborted {
        GiveUp();
        return;
      }
      ghost var heap := Contents(arrived);
      var bytes := Assemble(chunks, total);
      phase := Parsed(bytes[..]);
      Fill(bytes);
      assert Contents(arrived) == heap;
      OverwriteList();
    }

    /** A part that exceeds the limit is overwritten with the rest. */
    method Excess()
      requires Valid() && phase.Reading? && settlement.Some? && settlement.value.Part?
      modifies this`phase, this`part, arrived
      ensures phase == Failed && part == []
      ensures |chunks| < |arrived| && Contents(arrived) == Wipe(old(Contents(arrived)), |chunks| + 1)
    {
      hide Valid, Wipe, Zeros;
      Outline();
      ghost var heap := Contents(arrived);
      Fill(part[0]);
      ghost var filled := Contents(arrived);
      assert filled == heap[|chunks| := Zeros(|heap[|chunks|]|)];
      OverwriteList();
      part := [];
      phase := Failed;
      IsWipe(heap, Contents(arrived), |chunks| + 1);
    }

    /** Keeps the part and reads on; under an aborted signal the next read refuses at once. */
    method Keep()
      requires Valid() && phase.Reading? && settlement.Some? && settlement.value.Part?
      modifies this
      ensures arrived == old(arrived) && original == old(original) && Contents(arrived) == old(Contents(arrived))
      ensures phase == old(phase) && aborted == old(aborted)
      ensures |chunks| == |old(chunks)| + 1 <= |arrived| && chunks == arrived[..|chunks|] && part == []
      ensures total == old(total) + arrived[|old(chunks)|].Length
      ensures settlement == if aborted then Some(Rejected) else None
      ensures Abstract() == Call(old(Abstract()).(held := |chunks|, total := total))
    {
      hide Valid, Concat, Total, Inv;
      Outline();
      ghost var had, contents := chunks, Contents(arrived);
      assert arrived[..|had| + 1] == had + part;
      total := total + part[0].Length;
      chunks, part := chunks + part, [];
      settlement := if aborted then Some(Rejected) else None;
      listening, pending := !aborted, !aborted;
      assert Contents(arrived) == contents;
    }

    method TakePart()
      requires Valid() && phase.Reading? && settlement.Some? && settlement.value.Part?
      modifies this, arrived
      ensures arrived == old(arrived) && part == [] && |chunks| <= |arrived| && chunks == arrived[..|chunks|]
      ensures phase.Reading? ==> settlement == if aborted then Some(Rejected) else None
      ensures Abstract() == StreamReader.OnResume(old(Abstract()))
    {
      hide Concat, Total, Valid, Wipe, Zeros, Inv;
      Outline();
      ghost var before := Abstract();
      assert before.heap[before.held] == part[0][..];
      var sum := total + part[0].Length;
      if sum > MAX_RESPONSE_BYTES {
        Excess();
        total := sum;
        assert Abstract() == before.(phase := Failed, heap := Wipe(before.heap, before.held + 1), total := sum);
      } else {
        Keep();
      }
    }
  }
}
