/**
 The case statement of DCacheMissHandler: one miss register, phase by phase, as assignments to its next value.
 */
module DCacheMissEntry {
  import opened CacheTypes
  import opened DCacheModel
  import opened DCacheUnits

  // Assignments to the next value of an entry, grouped as the phases make them.

  function WithRelease(n: Mshr, canBeInvalid: bool, flushed: bool): Mshr
  {
    n.(canBeInvalid := canBeInvalid, isAllocatorLoadFlushed := flushed)
  }

  function WithPhase(n: Mshr, phase: MshrPhase): Mshr { n.(phase := phase) }

  function WithVictimTag(n: Mshr, valid: bool, addr: LineAddr): Mshr { n.(victimValid := valid, victimAddr := addr) }

  function WithVictimData(n: Mshr, line: Line, dirty: bool): Mshr
  {
    n.(victimReceived := true, line := line, victimDirty := dirty)
  }

  function WithTags(n: Mshr, tagOut: Way -> TagEntry): Mshr { n.(tagOut := tagOut) }

  function WithEvictWay(n: Mshr, way: Way): Mshr { n.(evictWay := way) }

  function WithLine(n: Mshr, line: Line, newValid: bool): Mshr { n.(line := line, newValid := newValid) }

  function WithWriteSerial(n: Mshr, serial: Serial): Mshr { n.(memWSerial := serial) }

  function WithReadSerial(n: Mshr, serial: Serial): Mshr { n.(memSerial := serial) }

  function Freed(n: Mshr): Mshr { n.(valid := false, phase := Invalid) }

  /** The fields that both ways to start an entry set alike. */
  function Started(n: Mshr, addr: LineAddr, byStore: bool, uncachable: bool, ptr: ListPtr): Mshr
  {
    n.(valid := true, newValid := false, victimValid := false, victimDirty := false, victimReceived := false,
       memSerial := 0, memWSerial := 0, canBeInvalid := false, isAllocatorLoadFlushed := false, flushIndex := 0,
       newAddr := addr, isAllocatedByStore := byStore, isUncachable := uncachable, listPtr := ptr)
  }

  function NextFlushLine(n: Mshr, index: Index): Mshr
  {
    n.(flushIndex := index, victimValid := false, victimDirty := false, victimReceived := false,
       memSerial := 0, memWSerial := 0, line := ZeroLine())
  }

  /** The value of an entry before the case of its phase. */
  function Defaults(e: Mshr, v: MshrView): Mshr
  {
    WithRelease(e, e.canBeInvalid || v.canBeInvalid || LoadLost(e, v), e.isAllocatorLoadFlushed || LoadLost(e, v))
  }

  // What NextMshr leaves of an entry beyond the defaults, for groups of phases.

  lemma OnlyPhaseChanges(e: Mshr, v: MshrView)
    requires
      || e.phase.FlushVictimRequest? || e.phase.FlushVictimWriteComplete? || e.phase.VictimRequest?
      || e.phase.VictimWriteComplete? || e.phase.UncachableWriteComplete? || e.phase.MissWriteCacheRequest?
    ensures NextMshr(e, v) == WithPhase(Defaults(e, v), MshrNextPhase(e, v))
  {
  }

  lemma WriteAccepted(e: Mshr, v: MshrView)
    requires e.phase.FlushVictimWriteToMem? || e.phase.VictimWriteToMem? || e.phase.UncachableWriteToMem?
    requires v.accepted
    ensures NextMshr(e, v) == WithPhase(WithWriteSerial(Defaults(e, v), v.memWSerial), MshrNextPhase(e, v))
  {
  }

  lemma WriteNotAccepted(e: Mshr, v: MshrView)
    requires e.phase.FlushVictimWriteToMem? || e.phase.VictimWriteToMem? || e.phase.UncachableWriteToMem?
    requires !v.accepted
    ensures NextMshr(e, v) == Defaults(e, v)
  {
  }

  lemma TagsReceived(e: Mshr, v: MshrView)
    requires e.phase.VictimReceiveTag?
    ensures NextMshr(e, v) == WithPhase(WithTags(Defaults(e, v), v.tagOut), VictimReceiveData)
  {
  }

  lemma FlushTagReceived(e: Mshr, v: MshrView)
    requires e.phase.FlushVictimReceiveTag?
    ensures NextMshr(e, v) ==
            WithPhase(WithVictimTag(Defaults(e, v), AnyValid(v.tagOut), NextVictimAddr(e, v)), MshrNextPhase(e, v))
  {
  }

  lemma FlushDataReceived(e: Mshr, v: MshrView)
    requires e.phase.FlushVictimReceiveData?
    ensures NextMshr(e, v) == WithPhase(WithVictimData(Defaults(e, v), v.dataOut, v.dirtyOut), MshrNextPhase(e, v))
  {
  }

  /** The way that the replacement state designates, and the address of its line. */
  function WithVictim(e: Mshr, v: MshrView): Mshr
  {
    WithVictimTag(WithEvictWay(Defaults(e, v), v.replOut), EvictsValid(e, v), NextVictimAddr(e, v))
  }

  lemma VictimReceived(e: Mshr, v: MshrView)
    requires e.phase.VictimReceiveData?
    ensures NextMshr(e, v) == WithPhase(WithVictimData(WithVictim(e, v), v.dataOut, v.dirtyOut), MshrNextPhase(e, v))
  {
    assert NextVictimValid(e, v) == EvictsValid(e, v) && NextVictimDirty(e, v) == v.dirtyOut;
    assert NextLineOf(e, v) == v.dataOut && NextEvictWay(e, v) == v.replOut && NextVictimReceived(e, v);
  }

  lemma LineReceived(e: Mshr, v: MshrView)
    requires e.phase.MissReadMemReceive?
    ensures NextMshr(e, v) ==
            if Received(e, v) then WithPhase(WithLine(Defaults(e, v), v.result.value.data, true), MshrNextPhase(e, v))
            else Defaults(e, v)
  {
  }

  /** One entry: the defaults first, then the case of its phase overrides them. */
  method NextEntry(e: Mshr, v: MshrView) returns (n: Mshr)
    ensures n == NextMshr(e, v)
  {
    n := e;
    if v.canBeInvalid { n := WithRelease(n, true, n.isAllocatorLoadFlushed); }
    if v.flushed && !e.isAllocatedByStore { n := WithRelease(n, true, true); }
    assert n == Defaults(e, v);
    match e.phase {
      case Invalid => n := InInvalid(e, v, n);
      case FlushVictimRequest => n := InFlushVictimRequest(e, v, n);
      case FlushVictimReceiveTag => n := InFlushVictimReceiveTag(e, v, n);
      case FlushVictimReceiveData => n := InFlushVictimReceiveData(e, v, n);
      case FlushVictimWriteToMem => n := InFlushVictimWriteToMem(e, v, n);
      case FlushVictimWriteComplete => n := InFlushVictimWriteComplete(e, v, n);
      case FlushCheck => n := InFlushCheck(e, v, n);
      case VictimRequest => n := InVictimRequest(e, v, n);
      case VictimReceiveTag => n := InVictimReceiveTag(e, v, n);
      case VictimReceiveData => n := InVictimReceiveData(e, v, n);
      case VictimWriteToMem => n := InVictimWriteToMem(e, v, n);
      case VictimWriteComplete => n := InVictimWriteComplete(e, v, n);
      case MissReadMemRequest => n := InMissReadMemRequest(e, v, n);
      case MissReadMemReceive => n := InMissReadMemReceive(e, v, n);
      case MissMergeStoreData => n := InMissMergeStoreData(e, v, n);
      case UncachableWriteToMem => n := InUncachableWriteToMem(e, v, n);
      case UncachableWriteComplete => n := InUncachableWriteComplete(e, v, n);
      case MissWriteCacheRequest => n := InMissWriteCacheRequest(e, v, n);
      case MissHandlingComplete => n := InMissHandlingComplete(e, v, n);
    }
  }

  method InInvalid(e: Mshr, v: MshrView, start: Mshr) returns (n: Mshr)
    requires e.phase.Invalid? && start == Defaults(e, v)
    ensures n == NextMshr(e, v)
  {
    n := start;
    if v.alloc.Some? {
      var a := v.alloc.value;
      n := Started(n, a.addr, a.byStore, a.uncachable, a.listPtr);
      n := WithEvictWay(n, 0);
      n := WithPhase(n, if a.uncachable then MissReadMemRequest else VictimRequest);
    } else if v.startFlush {
      n := Started(n, LineAddr(0, 0), false, false, v.allocPtr);
      n := WithLine(n, ZeroLine(), false);
      n := WithPhase(n, FlushVictimRequest);
    }
  }

  method InFlushVictimRequest(e: Mshr, v: MshrView, start: Mshr) returns (n: Mshr)
    requires e.phase.FlushVictimRequest? && start == Defaults(e, v)
    ensures n == NextMshr(e, v)
  {
    OnlyPhaseChanges(e, v);
    n := start;
    if v.grant { n := WithPhase(n, FlushVictimReceiveTag); }
  }

  method InFlushVictimReceiveTag(e: Mshr, v: MshrView, start: Mshr) returns (n: Mshr)
    requires e.phase.FlushVictimReceiveTag? && start == Defaults(e, v)
    ensures n == NextMshr(e, v)
  {
    FlushTagReceived(e, v);
    n := start;
    if AnyValid(v.tagOut) {
      n := WithVictimTag(n, true, LineAddr(e.flushIndex, v.tagOut(0).tag));
      n := WithPhase(n, FlushVictimReceiveData);
    } else {
      n := WithVictimTag(n, false, n.victimAddr);
      n := WithPhase(n, FlushCheck);
    }
  }

  method InFlushVictimReceiveData(e: Mshr, v: MshrView, start: Mshr) returns (n: Mshr)
    requires e.phase.FlushVictimReceiveData? && start == Defaults(e, v)
    ensures n == NextMshr(e, v)
  {
    FlushDataReceived(e, v);
    n := WithVictimData(start, v.dataOut, v.dirtyOut);
    n := WithPhase(n, if n.victimDirty then FlushVictimWriteToMem else FlushCheck);
  }

  method InFlushVictimWriteToMem(e: Mshr, v: MshrView, start: Mshr) returns (n: Mshr)
    requires e.phase.FlushVictimWriteToMem? && start == Defaults(e, v)
    ensures n == NextMshr(e, v)
  {
    n := start;
    if v.accepted {
      WriteAccepted(e, v);
      n := WithWriteSerial(n, v.memWSerial);
      n := WithPhase(n, FlushVictimWriteComplete);
    } else {
      WriteNotAccepted(e, v);
    }
  }

  method InFlushVictimWriteComplete(e: Mshr, v: MshrView, start: Mshr) returns (n: Mshr)
    requires e.phase.FlushVictimWriteComplete? && start == Defaults(e, v)
    ensures n == NextMshr(e, v)
  {
    OnlyPhaseChanges(e, v);
    n := start;
    if !(e.victimValid && e.victimDirty && !Answered(v.response, e.memWSerial)) { n := WithPhase(n, FlushCheck); }
  }

  method InFlushCheck(e: Mshr, v: MshrView, start: Mshr) returns (n: Mshr)
    requires e.phase.FlushCheck? && start == Defaults(e, v)
    ensures n == NextMshr(e, v)
  {
    var complete := e.flushIndex == INDEX_NUM - 1;
    n := NextFlushLine(start, if complete then 0 else e.flushIndex + 1);
    n := if complete then Freed(n) else WithPhase(n, FlushVictimRequest);
  }

  method InVictimRequest(e: Mshr, v: MshrView, start: Mshr) returns (n: Mshr)
    requires e.phase.VictimRequest? && start == Defaults(e, v)
    ensures n == NextMshr(e, v)
  {
    OnlyPhaseChanges(e, v);
    n := start;
    if v.grant { n := WithPhase(n, VictimReceiveTag); }
    else if e.isAllocatorLoadFlushed { n := WithPhase(n, MissHandlingComplete); }
  }

  method InVictimReceiveTag(e: Mshr, v: MshrView, start: Mshr) returns (n: Mshr)
    requires e.phase.VictimReceiveTag? && start == Defaults(e, v)
    ensures n == NextMshr(e, v)
  {
    TagsReceived(e, v);
    n := WithTags(start, v.tagOut);
    n := WithPhase(n, VictimReceiveData);
  }

  method InVictimReceiveData(e: Mshr, v: MshrView, start: Mshr) returns (n: Mshr)
    requires e.phase.VictimReceiveData? && start == Defaults(e, v)
    ensures n == NextMshr(e, v)
  {
    VictimReceived(e, v);
    n := WithEvictWay(start, v.replOut);
    var victim := e.tagOut(n.evictWay);
    n := WithVictimTag(n, victim.valid, if victim.valid then LineAddr(e.newAddr.index, victim.tag) else n.victimAddr);
    n := WithVictimData(n, v.dataOut, v.dirtyOut);
    n := WithPhase(n, if n.victimValid && n.victimDirty then VictimWriteToMem else MissReadMemRequest);
  }

  method InVictimWriteToMem(e: Mshr, v: MshrView, start: Mshr) returns (n: Mshr)
    requires e.phase.VictimWriteToMem? && start == Defaults(e, v)
    ensures n == NextMshr(e, v)
  {
    n := start;
    if v.accepted {
      WriteAccepted(e, v);
      n := WithWriteSerial(n, v.memWSerial);
      n := WithPhase(n, VictimWriteComplete);
    } else {
      WriteNotAccepted(e, v);
    }
  }

  method InVictimWriteComplete(e: Mshr, v: MshrView, start: Mshr) returns (n: Mshr)
    requires e.phase.VictimWriteComplete? && start == Defaults(e, v)
    ensures n == NextMshr(e, v)
  {
    OnlyPhaseChanges(e, v);
    n := start;
    if !(e.victimValid && e.victimDirty && !Answered(v.response, e.memWSerial)) {
      n := WithPhase(n, MissReadMemRequest);
    }
  }

  method InMissReadMemRequest(e: Mshr, v: MshrView, start: Mshr) returns (n: Mshr)
    requires e.phase.MissReadMemRequest? && start == Defaults(e, v)
    ensures n == NextMshr(e, v)
  {
    n := WithVictimTag(start, false, start.victimAddr);
    if v.accepted {
      n := WithReadSerial(n, v.memSerial);
      n := WithPhase(n, MissReadMemReceive);
    }
  }

  method InMissReadMemReceive(e: Mshr, v: MshrView, start: Mshr) returns (n: Mshr)
    requires e.phase.MissReadMemReceive? && start == Defaults(e, v)
    ensures n == NextMshr(e, v)
  {
    LineReceived(e, v);
    n := start;
    if v.result.Some? && v.result.value.serial == e.memSerial {
      n := WithLine(n, v.result.value.data, true);
      n := WithPhase(n, if e.isAllocatedByStore then MissMergeStoreData
                        else if e.isUncachable then MissHandlingComplete else MissWriteCacheRequest);
    }
  }

  method InMissMergeStoreData(e: Mshr, v: MshrView, start: Mshr) returns (n: Mshr)
    requires e.phase.MissMergeStoreData? && start == Defaults(e, v)
    ensures n == NextMshr(e, v)
  {
    var merged := new bv8[LINE_BYTE_NUM];
    MergeStoreDataToLine(merged, e.line, v.storeData, v.storeMask);
    n := WithLine(start, merged[..], start.newValid);
    n := WithPhase(n, if e.isUncachable then UncachableWriteToMem else MissWriteCacheRequest);
  }

  method InUncachableWriteToMem(e: Mshr, v: MshrView, start: Mshr) returns (n: Mshr)
    requires e.phase.UncachableWriteToMem? && start == Defaults(e, v)
    ensures n == NextMshr(e, v)
  {
    n := start;
    if v.accepted {
      WriteAccepted(e, v);
      n := WithWriteSerial(n, v.memWSerial);
      n := WithPhase(n, UncachableWriteComplete);
    } else {
      WriteNotAccepted(e, v);
    }
  }

  method InUncachableWriteComplete(e: Mshr, v: MshrView, start: Mshr) returns (n: Mshr)
    requires e.phase.UncachableWriteComplete? && start == Defaults(e, v)
    ensures n == NextMshr(e, v)
  {
    OnlyPhaseChanges(e, v);
    n := start;
    if !(e.newValid && !Answered(v.response, e.memWSerial)) { n := WithPhase(n, MissHandlingComplete); }
  }

  method InMissWriteCacheRequest(e: Mshr, v: MshrView, start: Mshr) returns (n: Mshr)
    requires e.phase.MissWriteCacheRequest? && start == Defaults(e, v)
    ensures n == NextMshr(e, v)
  {
    OnlyPhaseChanges(e, v);
    n := start;
    if v.grant || e.isAllocatorLoadFlushed { n := WithPhase(n, MissHandlingComplete); }
  }

  method InMissHandlingComplete(e: Mshr, v: MshrView, start: Mshr) returns (n: Mshr)
    requires e.phase.MissHandlingComplete? && start == Defaults(e, v)
    ensures n == NextMshr(e, v)
  {
    n := start;
    if e.canBeInvalid || e.isAllocatedByStore { n := Freed(n); }
  }
}
