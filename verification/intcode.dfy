/** The machine of `src/computer.rs`: a memory of unsigned words and an
    instruction pointer, with three opcodes. Every operand is an address
    (position mode): opcode 1 adds the words at two addresses and stores the
    sum at a third, opcode 2 does the same with the product, 99 halts, and any
    other opcode is an error. Reading or writing past the end of memory is a
    panic in the program; here it is the fault `IndexOutOfBounds`. */
module Intcode {

  const ADD: nat := 1
  const MULTIPLY: nat := 2
  const HALT: nat := 99

  datatype Computer = Computer(ip: nat, memory: seq<nat>)

  /** `ComputeError` is the program's error value for an unknown opcode;
      `IndexOutOfBounds` is the panic of an out-of-range index. */
  datatype Fault = ComputeError | IndexOutOfBounds

  datatype Status = Running | Halted | Faulted(fault: Fault)

  /** The state after one step together with what `step` reported:
      `Ok(false)`, `Ok(true)`, or an error. */
  datatype StepResult = StepResult(state: Computer, status: Status)

  /** What `run_to_completion` ends with: the word at address 0 once the
      machine halts, or the fault that stopped it. */
  datatype RunResult = Finished(state: Computer, value: nat) | Aborted(state: Computer, fault: Fault)

  function New(memory: seq<nat>): (c: Computer)
    ensures c.ip == 0 && c.memory == memory
  {
    Computer(0, memory)
  }

  /** Every address an add or multiply at `ip` reads or writes is in range. */
  predicate OperandsInRange(c: Computer) {
    var m := c.memory;
    c.ip + 3 < |m| && m[c.ip + 1] < |m| && m[c.ip + 2] < |m| && m[c.ip + 3] < |m|
  }

  /** One instruction. Operands and destination are all read before the
      write, so an instruction may overwrite its own operands or opcode. */
  function Step(c: Computer): (r: StepResult)
    ensures r.status != Running ==> r.state == c
    ensures r.status == Halted <==> c.ip < |c.memory| && c.memory[c.ip] == HALT
    ensures r.status == Faulted(ComputeError) <==>
      c.ip < |c.memory| && c.memory[c.ip] !in {ADD, MULTIPLY, HALT}
    ensures r.status == Running <==>
      c.ip < |c.memory| && c.memory[c.ip] in {ADD, MULTIPLY} && OperandsInRange(c)
    ensures r.status == Running ==>
      && r.state.ip == c.ip + 4
      && |r.state.memory| == |c.memory|
      && forall a :: 0 <= a < |c.memory| && a != c.memory[c.ip + 3] ==> r.state.memory[a] == c.memory[a]
  {
    var m := c.memory;
    if c.ip >= |m| then StepResult(c, Faulted(IndexOutOfBounds))
    else
      var op := m[c.ip];
      if op == ADD || op == MULTIPLY then
        if !OperandsInRange(c) then StepResult(c, Faulted(IndexOutOfBounds))
        else
          var x := m[m[c.ip + 1]];
          var y := m[m[c.ip + 2]];
          var dest := m[c.ip + 3];
          var v := if op == ADD then x + y else x * y;
          StepResult(Computer(c.ip + 4, m[dest := v]), Running)
      else if op == HALT then StepResult(c, Halted)
      else StepResult(c, Faulted(ComputeError))
  }

  /** Opcode 1 stores the sum of the two operand words at the destination. */
  lemma StepAdd(c: Computer)
    requires c.ip < |c.memory| && c.memory[c.ip] == ADD && OperandsInRange(c)
    ensures var m := c.memory;
      Step(c).state.memory[m[c.ip + 3]] == m[m[c.ip + 1]] + m[m[c.ip + 2]]
  {
  }

  /** Opcode 2 stores the product of the two operand words at the destination. */
  lemma StepMultiply(c: Computer)
    requires c.ip < |c.memory| && c.memory[c.ip] == MULTIPLY && OperandsInRange(c)
    ensures var m := c.memory;
      Step(c).state.memory[m[c.ip + 3]] == m[m[c.ip + 1]] * m[m[c.ip + 2]]
  {
  }

  /** `run_to_completion`: step until the machine halts or faults. Each
      running step moves `ip` forward by 4 and stays inside memory, so
      `|memory| - ip` decreases. */
  function Run(c: Computer): (r: RunResult)
    ensures |r.state.memory| == |c.memory|
    ensures c.ip <= r.state.ip && (r.state.ip - c.ip) % 4 == 0
    ensures r.Finished? ==> Step(r.state).status == Halted && r.value == r.state.memory[0]
    ensures r.Aborted? ==> Step(r.state).status == Faulted(r.fault)
    decreases |c.memory| - c.ip
  {
    var s := Step(c);
    match s.status
    case Running =>
      var r := Run(s.state);
      FourMore(c.ip, s.state.ip, r.state.ip);
      r
    case Halted => Finished(c, c.memory[0])
    case Faulted(f) => Aborted(c, f)
  }

  /** A whole number of instructions after one more instruction is still a
      whole number of instructions. */
  lemma FourMore(a: nat, b: nat, e: nat)
    requires b == a + 4 && b <= e && (e - b) % 4 == 0
    ensures a <= e && (e - a) % 4 == 0
  {
  }

  /** `n` steps of the machine, stopping early at the first step that does
      not leave it running. */
  function Iterate(c: Computer, n: nat): StepResult
    decreases n
  {
    if n == 0 then StepResult(c, Running)
    else
      var s := Step(c);
      if s.status == Running then Iterate(s.state, n - 1) else s
  }

  function StatusOf(r: RunResult): Status {
    match r
    case Finished(_, _) => Halted
    case Aborted(_, f) => Faulted(f)
  }

  /** `run_to_completion` is the iteration of `step` to its end, and it gets
      there within `|memory|/4 + 1` steps from any in-range `ip`. */
  lemma {:induction false} RunWithinBound(c: Computer) returns (n: nat)
    requires c.ip <= |c.memory|
    ensures 1 <= n <= (|c.memory| - c.ip) / 4 + 1
    ensures Iterate(c, n) == StepResult(Run(c).state, StatusOf(Run(c)))
    decreases |c.memory| - c.ip
  {
    var s := Step(c);
    if s.status == Running {
      var k := RunWithinBound(s.state);
      n := k + 1;
    } else {
      n := 1;
    }
  }

  /** The program's loop, as written: step until `step` reports halt or an
      error, then read address 0. */
  method RunToCompletion(memory: seq<nat>) returns (result: RunResult)
    ensures result == Run(New(memory))
    ensures result.Finished? ==> |memory| > 0 && result.value == result.state.memory[0]
  {
    var c := New(memory);
    while true
      invariant Run(c) == Run(New(memory))
      decreases |c.memory| - c.ip
    {
      var s := Step(c);
      match s.status {
        case Running =>
          c := s.state;
        case Halted =>
          return Finished(c, c.memory[0]);
        case Faulted(f) =>
          return Aborted(c, f);
      }
    }
  }

  // ---------------------------------------------------------------------
  // The regression vectors of the program's tests

  lemma FirstExample()
    ensures Run(New([1, 9, 10, 3, 2, 3, 11, 0, 99, 30, 40, 50])).Finished?
    ensures Run(New([1, 9, 10, 3, 2, 3, 11, 0, 99, 30, 40, 50])).state.memory
         == [3500, 9, 10, 70, 2, 3, 11, 0, 99, 30, 40, 50]
  {
    var c0 := New([1, 9, 10, 3, 2, 3, 11, 0, 99, 30, 40, 50]);
    var c1 := Computer(4, [1, 9, 10, 70, 2, 3, 11, 0, 99, 30, 40, 50]);
    var c2 := Computer(8, [3500, 9, 10, 70, 2, 3, 11, 0, 99, 30, 40, 50]);
    assert Step(c0) == StepResult(c1, Running);
    assert Step(c1) == StepResult(c2, Running);
    assert Run(c2) == Finished(c2, 3500);
    assert Run(c1) == Run(c2);
  }

  lemma SecondExample()
    ensures Run(New([1, 0, 0, 0, 99])).Finished?
    ensures Run(New([1, 0, 0, 0, 99])).state.memory == [2, 0, 0, 0, 99]
  {
  }

  lemma ThirdExample()
    ensures Run(New([2, 3, 0, 3, 99])).Finished?
    ensures Run(New([2, 3, 0, 3, 99])).state.memory == [2, 3, 0, 6, 99]
  {
  }

  lemma FourthExample()
    ensures Run(New([2, 4, 4, 5, 99, 0])).Finished?
    ensures Run(New([2, 4, 4, 5, 99, 0])).state.memory == [2, 4, 4, 5, 99, 9801]
  {
  }

  /** The first instruction writes 2 over the opcode of the second (the halt
      at address 4 becomes a multiply), which then runs as a multiply. */
  lemma FifthExample()
    ensures Run(New([1, 1, 1, 4, 99, 5, 6, 0, 99]))
         == Finished(Computer(8, [30, 1, 1, 4, 2, 5, 6, 0, 99]), 30)
  {
  }
}
