/** The packet filter program of process/netlink_process.go, on a model of the classic BPF machine. */
module PacketFilter {
  import opened Collections

  datatype Instruction =
    | LoadAbsolute(off: nat, size: nat)
    | JumpIf(val: nat, skipTrue: nat, skipFalse: nat)
    | JumpIfX(skipTrue: nat, skipFalse: nat)
    | StoreScratch(n: nat)
    | LoadScratch(n: nat)
    | RetConstant(val: nat)

  type Program = seq<Instruction>

  /** The words that loads can see, by offset and size; a load outside the packet ends the run with rejection. */
  type Packet = map<(nat, nat), nat>

  function Word(p: Packet, off: nat, size: nat): Option<nat> {
    if (off, size) in p then Some(p[(off, size)]) else None
  }

  datatype Machine = Machine(pc: nat, a: nat, x: nat, scratch: map<nat, nat>)

  datatype Verdict = Verdict(bytes: nat) | Stuck

  function Scratch(m: Machine, n: nat): nat {
    if n in m.scratch then m.scratch[n] else 0
  }

  function Run(prog: Program, p: Packet, m: Machine): Verdict
    decreases |prog| - m.pc
  {
    if m.pc >= |prog| then Stuck
    else
      match prog[m.pc]
      case LoadAbsolute(off, size) =>
        if Word(p, off, size).None? then Verdict(0) else Run(prog, p, m.(pc := m.pc + 1, a := Word(p, off, size).value))
      case JumpIf(val, t, f) => Run(prog, p, m.(pc := m.pc + 1 + (if m.a == val then t else f)))
      case JumpIfX(t, f) => Run(prog, p, m.(pc := m.pc + 1 + (if m.a == m.x then t else f)))
      case StoreScratch(n) => Run(prog, p, m.(pc := m.pc + 1, scratch := m.scratch[n := m.a]))
      case LoadScratch(n) => Run(prog, p, m.(pc := m.pc + 1, x := Scratch(m, n)))
      case RetConstant(val) => Verdict(val)
  }

  const BOOT := Machine(0, 0, 0, map[])

  function Filter(prog: Program, p: Packet): Verdict {
    Run(prog, p, BOOT)
  }

  // ---------------------------------------------------------------- the program

  const ACCEPT: nat := 0xFFFF_FFFF
  const NLMSG_DONE: nat := 3
  const CN_IDX_PROC: nat := 1
  const CN_VAL_PROC: nat := 1
  const FORK: nat := 0x0000_0001
  const EXEC: nat := 0x0000_0002
  const UID: nat := 0x0000_0004
  const GID: nat := 0x0000_0040
  const SID: nat := 0x0000_0080
  const COMM: nat := 0x0000_0200
  const EXIT: nat := 0x8000_0000

  // offsets in the netlink header, the connector message and the process event
  const TYPE_OFF: nat := 4
  const IDX_OFF: nat := 16
  const VAL_OFF: nat := 20
  const WHAT_OFF: nat := 36
  const EVENT_OFF: nat := 52

  /** A load, a test, and rejection when it fails. */
  function Guard(off: nat, size: nat, val: nat): Program {
    [LoadAbsolute(off, size), JumpIf(val, 1, 0), RetConstant(0)]
  }

  function Header(): Program {
    Guard(TYPE_OFF, 2, NLMSG_DONE) + (Guard(IDX_OFF, 4, CN_IDX_PROC) + (Guard(VAL_OFF, 4, CN_VAL_PROC) + [LoadAbsolute(WHAT_OFF, 4)]))
  }

  /** The comparison of the two ids of an event. */
  function Body(pidOff: nat, tgidOff: nat): Program {
    [LoadAbsolute(pidOff, 4), StoreScratch(0), LoadScratch(0), LoadAbsolute(tgidOff, 4), JumpIfX(1, 0), RetConstant(0), RetConstant(ACCEPT)]
  }

  /** The test of an event kind, followed by the comparison. */
  function Section(kind: nat, skip: nat, pidOff: nat, tgidOff: nat): Program {
    [JumpIf(kind, 0, skip)] + Body(pidOff, tgidOff)
  }

  function Tail(): Program {
    [JumpIf(UID, 4, 0), JumpIf(GID, 3, 0), JumpIf(SID, 2, 0), JumpIf(COMM, 1, 0), RetConstant(0), RetConstant(ACCEPT)]
  }

  /** The program, for a given number of instructions skipped when an event is not of a section's kind. */
  function ProgramSkipping(skip: nat): Program {
    Header()
    + (Section(FORK, skip, EVENT_OFF + 8, EVENT_OFF + 12)
    + (Section(EXEC, skip, EVENT_OFF, EVENT_OFF + 4)
    + (Section(EXIT, skip, EVENT_OFF, EVENT_OFF + 4)
    + Tail())))
  }

  /** As written, eight: one more than a section is long. */
  const PROGRAM: Program := ProgramSkipping(8)

  // ---------------------------------------------------------------- every program that only jumps inside

  /** Every path from an instruction stays inside the program. */
  predicate Inside(prog: Program, i: nat)
    requires i < |prog|
  {
    match prog[i]
    case JumpIf(_, t, f) => i + 1 + t < |prog| && i + 1 + f < |prog|
    case JumpIfX(t, f) => i + 1 + t < |prog| && i + 1 + f < |prog|
    case RetConstant(_) => true
    case _ => i + 1 < |prog|
  }

  ghost predicate Closed(prog: Program) {
    forall i :: 0 <= i < |prog| ==> Inside(prog, i)
  }

  /** Such a program ends every run with a verdict. */
  lemma {:induction false} ClosedRuns(prog: Program, p: Packet, m: Machine)
    requires Closed(prog) && m.pc < |prog|
    ensures Run(prog, p, m).Verdict?
    decreases |prog| - m.pc
  {
    assert Inside(prog, m.pc);
    match prog[m.pc]
    case LoadAbsolute(off, size) =>
      if Word(p, off, size).Some? {
        ClosedRuns(prog, p, m.(pc := m.pc + 1, a := Word(p, off, size).value));
      }
    case JumpIf(val, t, f) => ClosedRuns(prog, p, m.(pc := m.pc + 1 + (if m.a == val then t else f)));
    case JumpIfX(t, f) => ClosedRuns(prog, p, m.(pc := m.pc + 1 + (if m.a == m.x then t else f)));
    case StoreScratch(n) => ClosedRuns(prog, p, m.(pc := m.pc + 1, scratch := m.scratch[n := m.a]));
    case LoadScratch(n) => ClosedRuns(prog, p, m.(pc := m.pc + 1, x := Scratch(m, n)));
    case RetConstant(_) =>
  }

  lemma ProgramClosed(skip: nat)
    requires skip <= 8
    ensures Closed(ProgramSkipping(skip)) && |ProgramSkipping(skip)| == 40
  {
  }

  // ---------------------------------------------------------------- pieces of a program

  /** `part` stands at position `at` of the program. */
  ghost predicate At(prog: Program, at: nat, part: Program) {
    at + |part| <= |prog| && forall i :: 0 <= i < |part| ==> prog[at + i] == part[i]
  }

  lemma AtIndex(prog: Program, at: nat, part: Program, i: nat)
    requires At(prog, at, part) && i < |part|
    ensures at + i < |prog| && prog[at + i] == part[i]
  {
  }

  lemma AtSplit(prog: Program, at: nat, a: Program, b: Program)
    requires At(prog, at, a + b)
    ensures At(prog, at, a) && At(prog, at + |a|, b)
  {
    forall i | 0 <= i < |a| ensures prog[at + i] == a[i] {
      AtIndex(prog, at, a + b, i);
    }
    forall i | 0 <= i < |b| ensures prog[at + |a| + i] == b[i] {
      AtIndex(prog, at, a + b, |a| + i);
    }
  }

  lemma AtStart(prog: Program)
    ensures At(prog, 0, prog)
  {
  }

  lemma GuardRuns(prog: Program, p: Packet, m: Machine, off: nat, size: nat, val: nat)
    requires At(prog, m.pc, Guard(off, size, val))
    ensures Run(prog, p, m) ==
            if Word(p, off, size) == Some(val) then Run(prog, p, m.(pc := m.pc + 3, a := val)) else Verdict(0)
  {
    var part := Guard(off, size, val);
    AtIndex(prog, m.pc, part, 0);
    AtIndex(prog, m.pc, part, 1);
    AtIndex(prog, m.pc, part, 2);
    if Word(p, off, size).Some? {
      var m1 := m.(pc := m.pc + 1, a := Word(p, off, size).value);
      assert Run(prog, p, m) == Run(prog, p, m1);
      if m1.a != val {
        assert Run(prog, p, m1) == Run(prog, p, m1.(pc := m.pc + 2));
      }
    }
  }

  /** Both ids are in the packet and equal: the event is of a process, not of one of its threads. */
  predicate SameIds(p: Packet, pidOff: nat, tgidOff: nat) {
    Word(p, pidOff, 4).Some? && Word(p, pidOff, 4) == Word(p, tgidOff, 4)
  }

  /** A section entered past its test compares the two ids. */
  lemma BodyRuns(prog: Program, p: Packet, m: Machine, pidOff: nat, tgidOff: nat)
    requires At(prog, m.pc, Body(pidOff, tgidOff))
    ensures Run(prog, p, m) == Verdict(if SameIds(p, pidOff, tgidOff) then ACCEPT else 0)
  {
    var body := Body(pidOff, tgidOff);
    AtIndex(prog, m.pc, body, 0);
    if Word(p, pidOff, 4).Some? {
      var pid := Word(p, pidOff, 4).value;
      var m1 := m.(pc := m.pc + 1, a := pid);
      var m2 := m1.(pc := m.pc + 2, scratch := m.scratch[0 := pid]);
      var m3 := m2.(pc := m.pc + 3, x := pid);
      AtIndex(prog, m.pc, body, 1);
      AtIndex(prog, m.pc, body, 2);
      assert Run(prog, p, m) == Run(prog, p, m1) == Run(prog, p, m2) == Run(prog, p, m3);
      CompareRuns(prog, p, m3, m.pc, body, pidOff, tgidOff, pid);
    }
  }

  lemma CompareRuns(prog: Program, p: Packet, m3: Machine, pc: nat, body: Program, pidOff: nat, tgidOff: nat, pid: nat)
    requires body == Body(pidOff, tgidOff) && At(prog, pc, body) && m3.pc == pc + 3 && m3.x == pid
    ensures Run(prog, p, m3) == Verdict(if Word(p, tgidOff, 4) == Some(pid) then ACCEPT else 0)
  {
    AtIndex(prog, pc, body, 3);
    if Word(p, tgidOff, 4).Some? {
      AtIndex(prog, pc, body, 4);
      AtIndex(prog, pc, body, 5);
      AtIndex(prog, pc, body, 6);
      var m4 := m3.(pc := pc + 4, a := Word(p, tgidOff, 4).value);
      var m5 := m4.(pc := pc + 5 + (if m4.a == m4.x then 1 else 0));
      assert Run(prog, p, m3) == Run(prog, p, m4) == Run(prog, p, m5);
    }
  }

  predicate HeaderMatches(p: Packet) {
    && Word(p, TYPE_OFF, 2) == Some(NLMSG_DONE)
    && Word(p, IDX_OFF, 4) == Some(CN_IDX_PROC)
    && Word(p, VAL_OFF, 4) == Some(CN_VAL_PROC)
  }

  /** The machine about to test the kind of an event. */
  function Dispatch(pc: nat, what: nat): Machine {
    Machine(pc, what, 0, map[])
  }

  lemma HeaderRuns(prog: Program, p: Packet)
    requires At(prog, 0, Header())
    ensures Filter(prog, p) ==
            if HeaderMatches(p) && Word(p, WHAT_OFF, 4).Some? then Run(prog, p, Dispatch(10, Word(p, WHAT_OFF, 4).value)) else Verdict(0)
  {
    var g1, g2, g3, l := Guard(TYPE_OFF, 2, NLMSG_DONE), Guard(IDX_OFF, 4, CN_IDX_PROC), Guard(VAL_OFF, 4, CN_VAL_PROC), [LoadAbsolute(WHAT_OFF, 4)];
    AtSplit(prog, 0, g1, g2 + (g3 + l));
    AtSplit(prog, 3, g2, g3 + l);
    AtSplit(prog, 6, g3, l);
    AtIndex(prog, 9, l, 0);
    GuardRuns(prog, p, BOOT, TYPE_OFF, 2, NLMSG_DONE);
    GuardRuns(prog, p, Machine(3, NLMSG_DONE, 0, map[]), IDX_OFF, 4, CN_IDX_PROC);
    GuardRuns(prog, p, Machine(6, CN_IDX_PROC, 0, map[]), VAL_OFF, 4, CN_VAL_PROC);
    if HeaderMatches(p) {
      LoadRuns(prog, p, Machine(9, CN_VAL_PROC, 0, map[]), WHAT_OFF, 4);
    }
  }

  lemma LoadRuns(prog: Program, p: Packet, m: Machine, off: nat, size: nat)
    requires m.pc < |prog| && prog[m.pc] == LoadAbsolute(off, size)
    ensures Run(prog, p, m) ==
            if Word(p, off, size).None? then Verdict(0) else Run(prog, p, m.(pc := m.pc + 1, a := Word(p, off, size).value))
  {
  }

  lemma TestRuns(prog: Program, p: Packet, m: Machine)
    requires m.pc < |prog| && prog[m.pc].JumpIf?
    ensures Run(prog, p, m) == Run(prog, p, m.(pc := m.pc + 1 + (if m.a == prog[m.pc].val then prog[m.pc].skipTrue else prog[m.pc].skipFalse)))
  {
  }

  // ---------------------------------------------------------------- the program as written

  /** What the program as written accepts: a fork of a process, and any other event whose first two words are equal. */
  predicate Accepts(p: Packet) {
    && HeaderMatches(p) && Word(p, WHAT_OFF, 4).Some?
    && (if Word(p, WHAT_OFF, 4).value == FORK then SameIds(p, EVENT_OFF + 8, EVENT_OFF + 12)
        else SameIds(p, EVENT_OFF, EVENT_OFF + 4))
  }

  /** The part of the program that runs: up to the end of the fork section, and the exec section past its test. */
  ghost predicate LivePart(prog: Program) {
    && At(prog, 0, Header())
    && At(prog, 10, Section(FORK, 8, EVENT_OFF + 8, EVENT_OFF + 12))
    && At(prog, 19, Body(EVENT_OFF, EVENT_OFF + 4))
  }

  lemma ProgramParts(skip: nat)
    ensures var prog := ProgramSkipping(skip);
            && At(prog, 0, Header())
            && At(prog, 10, Section(FORK, skip, EVENT_OFF + 8, EVENT_OFF + 12))
            && At(prog, 18, Section(EXEC, skip, EVENT_OFF, EVENT_OFF + 4))
            && At(prog, 26, Section(EXIT, skip, EVENT_OFF, EVENT_OFF + 4))
            && At(prog, 34, Tail())
  {
    var prog := ProgramSkipping(skip);
    var h, f, e, x, t := Header(), Section(FORK, skip, EVENT_OFF + 8, EVENT_OFF + 12),
                         Section(EXEC, skip, EVENT_OFF, EVENT_OFF + 4), Section(EXIT, skip, EVENT_OFF, EVENT_OFF + 4), Tail();
    AtStart(prog);
    AtSplit(prog, 0, h, f + (e + (x + t)));
    AtSplit(prog, 10, f, e + (x + t));
    AtSplit(prog, 18, e, x + t);
    AtSplit(prog, 26, x, t);
  }

  lemma ProgramIsLive()
    ensures LivePart(PROGRAM)
  {
    ProgramParts(8);
    AtSplit(PROGRAM, 18, [JumpIf(EXEC, 0, 8)], Body(EVENT_OFF, EVENT_OFF + 4));
  }

  /** Every packet gets one of two verdicts, by the first two ids of the event; the test for exec and everything
      after the exec section are never reached, so any program with the same live part gives the same verdicts. */
  lemma FilterAsWritten(prog: Program, p: Packet)
    requires LivePart(prog)
    ensures Filter(prog, p) == Verdict(if Accepts(p) then ACCEPT else 0)
  {
    HeaderRuns(prog, p);
    if HeaderMatches(p) && Word(p, WHAT_OFF, 4).Some? {
      var what := Word(p, WHAT_OFF, 4).value;
      AtSplit(prog, 10, [JumpIf(FORK, 0, 8)], Body(EVENT_OFF + 8, EVENT_OFF + 12));
      AtIndex(prog, 10, [JumpIf(FORK, 0, 8)], 0);
      TestRuns(prog, p, Dispatch(10, what));
      if what == FORK {
        BodyRuns(prog, p, Dispatch(11, what), EVENT_OFF + 8, EVENT_OFF + 12);
      } else {
        BodyRuns(prog, p, Dispatch(19, what), EVENT_OFF, EVENT_OFF + 4);
      }
    }
  }

  // ---------------------------------------------------------------- the intention

  /** What the comments in the program ask for. */
  predicate Intended(p: Packet) {
    && HeaderMatches(p) && Word(p, WHAT_OFF, 4).Some?
    && var what := Word(p, WHAT_OFF, 4).value;
       if what == FORK then SameIds(p, EVENT_OFF + 8, EVENT_OFF + 12)
       else if what == EXEC || what == EXIT then SameIds(p, EVENT_OFF, EVENT_OFF + 4)
       else what == UID || what == GID || what == SID || what == COMM
  }

  /** The program does what it is meant to exactly on packets whose header does not match, on fork, exec and exit
      events, on id and name changes of whole processes, and on other events that are not about a whole process. */
  lemma WhenAsIntended(p: Packet)
    ensures (Filter(PROGRAM, p) == Verdict(if Intended(p) then ACCEPT else 0)) <==>
            (HeaderMatches(p) && Word(p, WHAT_OFF, 4).Some? ==>
               var what := Word(p, WHAT_OFF, 4).value;
               || what == FORK || what == EXEC || what == EXIT
               || (SameIds(p, EVENT_OFF, EVENT_OFF + 4) <==> what == UID || what == GID || what == SID || what == COMM))
  {
    ProgramIsLive();
    FilterAsWritten(PROGRAM, p);
  }

  /** A change of user id, of user 7 in process 5: it should be accepted, and is rejected. */
  lemma UserChangeRejected()
    ensures var p: Packet := map[(TYPE_OFF, 2) := NLMSG_DONE, (IDX_OFF, 4) := CN_IDX_PROC, (VAL_OFF, 4) := CN_VAL_PROC,
                                 (WHAT_OFF, 4) := UID, (EVENT_OFF, 4) := 5, (EVENT_OFF + 4, 4) := 7];
            Intended(p) && Filter(PROGRAM, p) == Verdict(0)
  {
    var p: Packet := map[(TYPE_OFF, 2) := NLMSG_DONE, (IDX_OFF, 4) := CN_IDX_PROC, (VAL_OFF, 4) := CN_VAL_PROC,
                         (WHAT_OFF, 4) := UID, (EVENT_OFF, 4) := 5, (EVENT_OFF + 4, 4) := 7];
    ProgramIsLive();
    FilterAsWritten(PROGRAM, p);
  }

  // ---------------------------------------------------------------- with the skips one shorter

  lemma SectionRuns(prog: Program, p: Packet, m: Machine, kind: nat, pidOff: nat, tgidOff: nat)
    requires At(prog, m.pc, Section(kind, 7, pidOff, tgidOff))
    ensures Run(prog, p, m) ==
            if m.a == kind then Verdict(if SameIds(p, pidOff, tgidOff) then ACCEPT else 0) else Run(prog, p, m.(pc := m.pc + 8))
  {
    AtSplit(prog, m.pc, [JumpIf(kind, 0, 7)], Body(pidOff, tgidOff));
    AtIndex(prog, m.pc, [JumpIf(kind, 0, 7)], 0);
    TestRuns(prog, p, m);
    if m.a == kind {
      BodyRuns(prog, p, m.(pc := m.pc + 1), pidOff, tgidOff);
    }
  }

  lemma TailRuns(prog: Program, p: Packet, m: Machine)
    requires At(prog, m.pc, Tail())
    ensures Run(prog, p, m) == Verdict(if m.a == UID || m.a == GID || m.a == SID || m.a == COMM then ACCEPT else 0)
  {
    AtIndex(prog, m.pc, Tail(), 0);
    AtIndex(prog, m.pc, Tail(), 1);
    AtIndex(prog, m.pc, Tail(), 2);
    AtIndex(prog, m.pc, Tail(), 3);
    AtIndex(prog, m.pc, Tail(), 4);
    AtIndex(prog, m.pc, Tail(), 5);
    assert Run(prog, p, m.(pc := m.pc + 4)) == Verdict(0);
    assert Run(prog, p, m.(pc := m.pc + 5)) == Verdict(ACCEPT);
    TestRuns(prog, p, m);
    TestRuns(prog, p, m.(pc := m.pc + 1));
    TestRuns(prog, p, m.(pc := m.pc + 2));
    TestRuns(prog, p, m.(pc := m.pc + 3));
  }

  /** Skipping seven instructions instead of eight, the program accepts exactly what is intended. */
  lemma SkippingSevenIsIntended(p: Packet)
    ensures Filter(ProgramSkipping(7), p) == Verdict(if Intended(p) then ACCEPT else 0)
  {
    var prog := ProgramSkipping(7);
    ProgramParts(7);
    HeaderRuns(prog, p);
    if HeaderMatches(p) && Word(p, WHAT_OFF, 4).Some? {
      var what := Word(p, WHAT_OFF, 4).value;
      SectionRuns(prog, p, Dispatch(10, what), FORK, EVENT_OFF + 8, EVENT_OFF + 12);
      SectionRuns(prog, p, Dispatch(18, what), EXEC, EVENT_OFF, EVENT_OFF + 4);
      SectionRuns(prog, p, Dispatch(26, what), EXIT, EVENT_OFF, EVENT_OFF + 4);
      TailRuns(prog, p, Dispatch(34, what));
    }
  }
}
