/** The seccomp filter compiler (backend/pkg/sandbox/seccomp_linux.go) and the classic-BPF
    interpreter its test uses (seccomp_sim_test.go).  The compiler lays a whitelist out in
    chunks of at most 120 equality tests; the theorem is that the emitted program decides
    exactly membership, for a whitelist of any length. */
module Seccomp {

  // The operand classes below occupy disjoint bits, so `|` of the original is `+` here.
  const BPF_LD := 0x00
  const BPF_JMP := 0x05
  const BPF_RET := 0x06
  const BPF_W := 0x00
  const BPF_ABS := 0x20
  const BPF_JEQ := 0x10
  const BPF_JA := 0x00
  const BPF_K := 0x00

  const LOAD := BPF_LD + BPF_W + BPF_ABS
  const JUMP_EQ := BPF_JMP + BPF_JEQ + BPF_K
  const JUMP_ALWAYS := BPF_JMP + BPF_JA + BPF_K
  const RETURN := BPF_RET + BPF_K

  const AUDIT_ARCH_X86_64 := 0xC000003E
  const SECCOMP_RET_ALLOW := 0x7FFF0000
  const CHUNK_SIZE := 120
  const SIMULATE_STEPS := 100000

  type int32 = x: int | -0x8000_0000 <= x < 0x8000_0000
  type uint32 = x: int | 0 <= x < 0x1_0000_0000
  type uint8 = x: int | 0 <= x < 256

  // Go's uint32(nr) of a signed number, and uint8(n) of an int: both keep the low bits.
  function ToUint32(n: int): uint32 { n % 0x1_0000_0000 }

  function ToUint8(n: int): uint8 { n % 256 }

  datatype Instruction = Instruction(code: int, jt: uint8, jf: uint8, k: uint32)

  function Stmt(code: int, k: uint32): Instruction { Instruction(code, 0, 0, k) }

  function Jump(code: int, k: uint32, jt: uint8, jf: uint8): Instruction { Instruction(code, jt, jf, k) }

  // ---------------------------------------------------------------- the interpreter

  datatype Outcome = Verdict(action: uint32) | PcOutOfRange | UnknownCode | OutOfSteps

  // One step: either a new (pc, accumulator) or an outcome.
  datatype Progress = Continue(pc: nat, a: uint32) | Stop(outcome: Outcome)

  function Step(prog: seq<Instruction>, arch: uint32, nr: int32, pc: nat, a: uint32): Progress {
    if pc >= |prog| then Stop(PcOutOfRange)
    else
      var ins := prog[pc];
      if ins.code == LOAD then Continue(pc + 1, if ins.k == 4 then arch else ToUint32(nr))
      else if ins.code == JUMP_EQ then Continue(pc + 1 + (if a == ins.k then ins.jt else ins.jf), a)
      else if ins.code == JUMP_ALWAYS then Continue(pc + 1 + ins.k, a)
      else if ins.code == RETURN then Stop(Verdict(ins.k))
      else Stop(UnknownCode)
  }

  // The meaning of a program.  Every jump of classic BPF goes forward, so no step budget is needed.
  function Exec(prog: seq<Instruction>, arch: uint32, nr: int32, pc: nat, a: uint32): Outcome
    decreases |prog| - pc
  {
    match Step(prog, arch, nr, pc, a)
    case Stop(o) => o
    case Continue(pc', a') => if pc >= |prog| then PcOutOfRange else Exec(prog, arch, nr, pc', a')
  }

  // The program counters a run visits.
  function Trace(prog: seq<Instruction>, arch: uint32, nr: int32, pc: nat, a: uint32): seq<nat>
    decreases |prog| - pc
  {
    match Step(prog, arch, nr, pc, a)
    case Stop(_) => [pc]
    case Continue(pc', a') => if pc >= |prog| then [pc] else [pc] + Trace(prog, arch, nr, pc', a')
  }

  /** A run is never longer than what is left of the program. */
  lemma {:induction false} TraceIsShort(prog: seq<Instruction>, arch: uint32, nr: int32, pc: nat, a: uint32)
    requires pc <= |prog|
    ensures |Trace(prog, arch, nr, pc, a)| <= |prog| - pc + 1
    decreases |prog| - pc
  {
    var st := Step(prog, arch, nr, pc, a);
    if st.Continue? && st.pc <= |prog| {
      TraceIsShort(prog, arch, nr, st.pc, st.a);
    }
  }

  /** The test's interpreter: the same steps under a budget. */
  method Simulate(prog: seq<Instruction>, arch: uint32, nr: int32) returns (r: Outcome)
    ensures r != OutOfSteps ==> r == Exec(prog, arch, nr, 0, 0)
    ensures |prog| < SIMULATE_STEPS ==> r == Exec(prog, arch, nr, 0, 0)
  {
    var a: uint32 := 0;
    var pc: nat := 0;
    for i := 0 to SIMULATE_STEPS
      invariant Exec(prog, arch, nr, 0, 0) == Exec(prog, arch, nr, pc, a)
      invariant i <= pc
      invariant i > 0 ==> i <= |prog|
    {
      if pc >= |prog| {
        return PcOutOfRange;
      }
      var ins := prog[pc];
      if ins.code == LOAD {
        if ins.k == 4 {
          a := arch;
        } else {
          a := ToUint32(nr);
        }
        pc := pc + 1;
      } else if ins.code == JUMP_EQ {
        if a == ins.k {
          pc := pc + 1 + ins.jt;
        } else {
          pc := pc + 1 + ins.jf;
        }
      } else if ins.code == JUMP_ALWAYS {
        pc := pc + 1 + ins.k;
      } else if ins.code == RETURN {
        return Verdict(ins.k);
      } else {
        return UnknownCode;
      }
    }
    return OutOfSteps;
  }

  // ---------------------------------------------------------------- the layout

  // The equality test for entry i of a chunk of n entries.
  function Entry(nr: int32, n: nat, i: nat, last: bool): Instruction
    requires i < n <= CHUNK_SIZE
  {
    Jump(JUMP_EQ, ToUint32(nr), ToUint8(n - 1 - i + (if last then 0 else 1)),
         ToUint8(if i != n - 1 then 0 else if last then 1 else 2))
  }

  function Entries(chunk: seq<int32>, last: bool): (r: seq<Instruction>)
    requires |chunk| <= CHUNK_SIZE
    ensures |r| == |chunk|
  {
    seq(|chunk|, i requires 0 <= i < |chunk| => Entry(chunk[i], |chunk|, i, last))
  }

  // What follows the tests of a chunk: the unused trampoline, and the ALLOW.
  function Tail(last: bool): seq<Instruction> {
    (if last then [] else [Jump(JUMP_ALWAYS, 2, 0, 0)]) + [Stmt(RETURN, SECCOMP_RET_ALLOW)]
  }

  function Min(a: int, b: int): int { if a < b then a else b }

  // The code for the whitelist from one chunk boundary on.
  function Chunks(allowed: seq<int32>): seq<Instruction>
    decreases |allowed|
  {
    if allowed == [] then []
    else
      var end := Min(CHUNK_SIZE, |allowed|);
      Entries(allowed[..end], end == |allowed|) + Tail(end == |allowed|) + Chunks(allowed[end..])
  }

  function Header(kill: uint32): seq<Instruction> {
    [Stmt(LOAD, 4), Jump(JUMP_EQ, AUDIT_ARCH_X86_64, 1, 0), Stmt(RETURN, kill), Stmt(LOAD, 0)]
  }

  function Program(allowed: seq<int32>, kill: uint32): seq<Instruction> {
    Header(kill) + Chunks(allowed) + [Stmt(RETURN, kill)]
  }

  // The verdict the documentation promises: default-deny, one architecture.
  function Decide(allowed: seq<int32>, kill: uint32, arch: uint32, nr: int32): Outcome {
    Verdict(if arch == AUDIT_ARCH_X86_64 && nr in allowed then SECCOMP_RET_ALLOW else kill)
  }

  lemma ToUint32Injective(x: int32, y: int32)
    ensures ToUint32(x) == ToUint32(y) <==> x == y
  {
  }

  // The code of one chunk sits at `base`, followed by something.
  ghost predicate ChunkAt(prog: seq<Instruction>, base: nat, chunk: seq<int32>, last: bool) {
    && 0 < |chunk| <= CHUNK_SIZE
    && base + |chunk| + |Tail(last)| < |prog|
    && prog[base..base + |chunk| + |Tail(last)|] == Entries(chunk, last) + Tail(last)
  }

  // A hit goes to the chunk's ALLOW; a miss to the next entry, or past the chunk.
  lemma EntryStep(prog: seq<Instruction>, base: nat, chunk: seq<int32>, last: bool, i: nat, arch: uint32, nr: int32)
    requires ChunkAt(prog, base, chunk, last) && i < |chunk|
    ensures
      var a, exit := ToUint32(nr), base + |chunk| + |Tail(last)|;
      var target := if nr == chunk[i] then exit - 1 else if i + 1 < |chunk| then base + i + 1 else exit;
      && Step(prog, arch, nr, base + i, a) == Continue(target, a)
      && Step(prog, arch, nr, exit - 1, a) == Stop(Verdict(SECCOMP_RET_ALLOW))
      && prog[base + i].code == JUMP_EQ && prog[exit - 1].code == RETURN
  {
    ToUint32Injective(nr, chunk[i]);
  }

  // From entry i on, the chunk allows exactly the numbers still listed and otherwise leaves
  // behind its own ALLOW ...
  lemma {:induction false} ChunkScan(prog: seq<Instruction>, base: nat, chunk: seq<int32>, last: bool, i: nat,
                                     arch: uint32, nr: int32)
    requires ChunkAt(prog, base, chunk, last) && i < |chunk|
    ensures
      var pc, a, exit := base + i, ToUint32(nr), base + |chunk| + |Tail(last)|;
      var hit := nr in chunk[i..];
      Exec(prog, arch, nr, pc, a) == if hit then Verdict(SECCOMP_RET_ALLOW) else Exec(prog, arch, nr, exit, a)
    decreases |chunk| - i
  {
    EntryStep(prog, base, chunk, last, i, arch, nr);
    assert chunk[i..] == [chunk[i]] + chunk[i + 1..];
    if chunk[i] != nr && i + 1 < |chunk| {
      ChunkScan(prog, base, chunk, last, i + 1, arch, nr);
    }
  }

  // ... never touching its trampoline.
  lemma {:induction false} ChunkAvoids(prog: seq<Instruction>, base: nat, chunk: seq<int32>, last: bool, i: nat,
                                       arch: uint32, nr: int32)
    requires ChunkAt(prog, base, chunk, last) && i < |chunk|
    requires AvoidsTrampolines(prog, Trace(prog, arch, nr, base + |chunk| + |Tail(last)|, ToUint32(nr)))
    ensures AvoidsTrampolines(prog, Trace(prog, arch, nr, base + i, ToUint32(nr)))
    decreases |chunk| - i
  {
    EntryStep(prog, base, chunk, last, i, arch, nr);
    var pc, a, exit := base + i, ToUint32(nr), base + |chunk| + |Tail(last)|;
    if chunk[i] == nr {
      assert Trace(prog, arch, nr, exit - 1, a) == [exit - 1];
      AvoidsCons(prog, pc, [exit - 1]);
    } else {
      var next := if i + 1 < |chunk| then pc + 1 else exit;
      if i + 1 < |chunk| {
        ChunkAvoids(prog, base, chunk, last, i + 1, arch, nr);
      }
      AvoidsCons(prog, pc, Trace(prog, arch, nr, next, a));
    }
  }

  lemma AvoidsCons(prog: seq<Instruction>, pc: nat, trace: seq<nat>)
    requires pc < |prog| && prog[pc].code != JUMP_ALWAYS && AvoidsTrampolines(prog, trace)
    ensures AvoidsTrampolines(prog, [pc] + trace)
  {
  }

  // No visited instruction is an unconditional jump.
  ghost predicate AvoidsTrampolines(prog: seq<Instruction>, trace: seq<nat>) {
    forall i | 0 <= i < |trace| :: trace[i] < |prog| && prog[trace[i]].code != JUMP_ALWAYS
  }

  lemma SplitCode(prog: seq<Instruction>, pc: nat, x: seq<Instruction>, y: seq<Instruction>, z: seq<Instruction>)
    requires pc <= |prog| && prog[pc..] == x + y + z
    ensures pc + |x| + |y| + |z| == |prog|
    ensures prog[pc..pc + |x|] == x && prog[pc + |x|..] == y + z
  {
  }

  lemma {:induction false} ChunksDecide(prog: seq<Instruction>, pc: nat, allowed: seq<int32>, kill: uint32,
                                        arch: uint32, nr: int32)
    requires pc <= |prog| && prog[pc..] == Chunks(allowed) + [Stmt(RETURN, kill)]
    ensures Exec(prog, arch, nr, pc, ToUint32(nr)) == Verdict(if nr in allowed then SECCOMP_RET_ALLOW else kill)
    ensures AvoidsTrampolines(prog, Trace(prog, arch, nr, pc, ToUint32(nr)))
    decreases |allowed|
  {
    if allowed == [] {
      assert prog[pc] == prog[pc..][0] == Stmt(RETURN, kill);
    } else {
      var end := Min(CHUNK_SIZE, |allowed|);
      var chunk, last := allowed[..end], end == |allowed|;
      SplitCode(prog, pc, Entries(chunk, last) + Tail(last), Chunks(allowed[end..]), [Stmt(RETURN, kill)]);
      ChunksDecide(prog, pc + |chunk| + |Tail(last)|, allowed[end..], kill, arch, nr);
      ChunkScan(prog, pc, chunk, last, 0, arch, nr);
      ChunkAvoids(prog, pc, chunk, last, 0, arch, nr);
    }
  }

  /** For every whitelist, architecture and syscall number the compiled program answers ALLOW
      exactly for a listed number on the 64-bit architecture and the kill action otherwise,
      and never executes a trampoline. */
  lemma ProgramDecides(allowed: seq<int32>, kill: uint32, arch: uint32, nr: int32)
    ensures Exec(Program(allowed, kill), arch, nr, 0, 0) == Decide(allowed, kill, arch, nr)
    ensures AvoidsTrampolines(Program(allowed, kill), Trace(Program(allowed, kill), arch, nr, 0, 0))
  {
    var prog := Program(allowed, kill);
    assert prog[..4] == Header(kill);
    assert prog[0] == Stmt(LOAD, 4) && prog[1] == Jump(JUMP_EQ, AUDIT_ARCH_X86_64, 1, 0);
    assert Exec(prog, arch, nr, 0, 0) == Exec(prog, arch, nr, 1, arch);
    if arch == AUDIT_ARCH_X86_64 {
      ChunksDecide(prog, 4, allowed, kill, arch, nr);
      assert Exec(prog, arch, nr, 3, arch) == Exec(prog, arch, nr, 4, ToUint32(nr));
      assert Step(prog, arch, nr, 1, arch) == Continue(3, arch);
      assert Trace(prog, arch, nr, 1, arch) == [1] + Trace(prog, arch, nr, 3, arch);
    } else {
      assert Step(prog, arch, nr, 1, arch) == Continue(2, arch);
      assert Step(prog, arch, nr, 2, arch) == Stop(Verdict(kill));
      assert Exec(prog, arch, nr, 1, arch) == Exec(prog, arch, nr, 2, arch);
      assert Trace(prog, arch, nr, 1, arch) == [1] + Trace(prog, arch, nr, 2, arch);
    }
  }

  // An instruction at position `i` of `len` jumps forward and stays inside.
  ghost predicate JumpInside(ins: Instruction, i: int, len: int) {
    && ins.jt <= CHUNK_SIZE && ins.jf <= CHUNK_SIZE
    && (ins.code == JUMP_EQ ==> i + 1 + ins.jt < len && i + 1 + ins.jf < len)
    && (ins.code == JUMP_ALWAYS ==> i + 1 + ins.k < len)
  }

  /** Layout safety: no offset exceeds 120, so the uint8 casts lose nothing, and every jump of
      every chunk, followed by at least the final kill, lands inside the program. */
  lemma {:induction false} OffsetsFit(allowed: seq<int32>, i: nat)
    requires i < |Chunks(allowed)|
    ensures JumpInside(Chunks(allowed)[i], i, |Chunks(allowed)| + 1)
    decreases |allowed|
  {
    var end := Min(CHUNK_SIZE, |allowed|);
    var chunk, last := allowed[..end], end == |allowed|;
    var code, next := Entries(chunk, last) + Tail(last), Chunks(allowed[end..]);
    assert Chunks(allowed) == code + next;
    if i >= |code| {
      OffsetsFit(allowed[end..], i - |code|);
      assert Chunks(allowed)[i] == next[i - |code|];
    } else {
      assert !last ==> |next| >= 2;
      ChunkOffsetsFit(chunk, last, i, |Chunks(allowed)| + 1);
      assert Chunks(allowed)[i] == code[i];
    }
  }

  lemma ChunkOffsetsFit(chunk: seq<int32>, last: bool, i: nat, len: nat)
    requires |chunk| <= CHUNK_SIZE && i < |chunk| + |Tail(last)|
    requires |chunk| + |Tail(last)| + (if last then 1 else 3) <= len
    ensures JumpInside((Entries(chunk, last) + Tail(last))[i], i, len)
  {
    var code := Entries(chunk, last) + Tail(last);
    assert code[i] == if i < |chunk| then Entry(chunk[i], |chunk|, i, last) else Tail(last)[i - |chunk|];
  }

  // One round of the outer loop.
  lemma ChunksStep(allowed: seq<int32>, start: nat, before: seq<Instruction>)
    requires start < |allowed|
    ensures
      var end := Min(start + CHUNK_SIZE, |allowed|);
      var last := end == |allowed|;
      before + Chunks(allowed[start..]) ==
      before + (Entries(allowed[start..end], last) + Tail(last)) + Chunks(allowed[end..])
  {
  }

  /** The compiler.  The kill action and the whitelist, which the original takes from the kernel
      version and the profile, are parameters. */
  method BuildSeccompProgram(allowed: seq<int32>, kill: uint32) returns (prog: seq<Instruction>)
    ensures prog == Program(allowed, kill)
  {
    prog := [Stmt(LOAD, 4), Jump(JUMP_EQ, AUDIT_ARCH_X86_64, 1, 0), Stmt(RETURN, kill)];
    prog := prog + [Stmt(LOAD, 0)];
    var start := 0;
    while start < |allowed|
      invariant 0 <= start
      invariant prog + Chunks(allowed[Min(start, |allowed|)..]) == Header(kill) + Chunks(allowed)
    {
      var end := Min(start + CHUNK_SIZE, |allowed|);
      var chunk := allowed[start..end];
      var last := end == |allowed|;
      var n := |chunk|;
      ghost var before, entries := prog, Entries(chunk, last);
      for i := 0 to n
        invariant prog == before + entries[..i]
      {
        assert entries[..i + 1] == entries[..i] + [Entry(chunk[i], n, i, last)];
        var jt := n - 1 - i;
        if last {
          jt := jt + 1;
        } else {
          jt := jt + 2;
        }
        jt := jt - 1;
        var jf := 0;
        if i == n - 1 {
          if last {
            jf := 1;
          } else {
            jf := 2;
          }
        }
        assert Entry(chunk[i], n, i, last) == Jump(JUMP_EQ, ToUint32(chunk[i]), ToUint8(jt), ToUint8(jf));
        prog := prog + [Jump(JUMP_EQ, ToUint32(chunk[i]), ToUint8(jt), ToUint8(jf))];
      }
      if !last {
        prog := prog + [Jump(JUMP_ALWAYS, 2, 0, 0)];
      }
      prog := prog + [Stmt(RETURN, SECCOMP_RET_ALLOW)];
      assert prog == before + (entries + Tail(last)) by {
        assert entries[..n] == entries;
      }
      ChunksStep(allowed, start, before);
      start := start + CHUNK_SIZE;
    }
    assert prog == Header(kill) + Chunks(allowed);
    prog := prog + [Stmt(RETURN, kill)];
  }

  /** Layout safety of a whole program. */
  lemma ProgramJumpsInside(allowed: seq<int32>, kill: uint32, pc: nat)
    requires pc < |Program(allowed, kill)|
    ensures JumpInside(Program(allowed, kill)[pc], pc, |Program(allowed, kill)|)
  {
    if 4 <= pc < |Program(allowed, kill)| - 1 {
      OffsetsFit(allowed, pc - 4);
    }
  }
}
