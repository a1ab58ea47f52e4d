# Advent of Code 2019 solutions, modelled in Dafny

This project models the sequential core of a set of Rust solutions to the
2019 Advent of Code puzzles. It covers:

- **The machine of `src/computer.rs`** (module `Intcode`). A memory of
  unsigned words and an instruction pointer, with three opcodes: 1 adds,
  2 multiplies, 99 halts, and any other opcode is an error. Every operand is
  an address. `step` is a pure transition. `run_to_completion` iterates it
  until the machine halts or fails, and returns the word at address 0.
- **Fuel for a module** (day 1, `Fuel`). The recursive fuel formula and the
  sum over all modules.
- **Crossed wires** (day 3, `Wires`). Parsing a move such as `R75`,
  tracing a wire unit step by unit step, and the crossing with the smallest
  combined step count.
- **Passwords** (day 4, `Passwords`). The four password predicates, and
  the count of the numbers in a range whose decimal text passes them.
- **Orbits** (day 6, `Orbits`). The orbiter-to-orbitee map built from
  `A)B` lines, each body's distance to `COM`, and their total.
- **The image checksum** (day 8, `Image`). Cutting a digit string into
  150-pixel layers, choosing the layer with the fewest zeros, and
  multiplying its counts of ones and twos.
- **The asteroid map parser** (day 10, `AsteroidField`). The grid becomes
  the set of `#` coordinates. Also the ordering of `Point`.
- **The hull-painting robot** (day 11, `PaintingRobot`). Moving, turning,
  and the robot's side of one exchange with its program.
- **The moons** (day 12, `NBody`). Reading a moon, energy, the
  three-dimensional step and the one-dimensional step, and the fact that
  the axes do not interact.

Supporting modules:

- `Outcome`: `Option` and `Result`.
- `Numbers`: absolute value and sums.
- `Text`: the parts of Rust's string library the programs use. These are
  `trim`, `lines`, `split`, integer parsing and `to_string`.

Panics in the source (an index out of range, an `unwrap` of nothing) are
modelled as explicit outcomes wherever the code can reach them. Examples are
`Intcode.Fault.IndexOutOfBounds`, `ContainsPair` returning `None`, and
`Image.Checksum` returning `None`. Elsewhere they become preconditions only
where the panic is a divergence, or where the program never reaches the
panic. Orbits is the exception: `Orbits.DistanceFromRoot` and
`Orbits.TotalOrbits` require every body's parent chain to reach `COM`. That
excludes the endless recursion on a cycle, but also the reachable `unwrap`
panic at `src/day6/main.rs:9` on a body with no parent, such as the single
line `A)B` (see "Left out").

Two unit tests of the source disagree with the code they test. The model
follows the code in both cases:

- `src/day4/main.rs:107` expects `contains_pair("abbbbc")` to be true. The
  code answers false: the first two checks fail, and no window of four
  characters has a pair with different characters on both sides.
  `Passwords.LongRunIsNoPair` proves the code's answer. The code's answer is
  also the puzzle's rule, that a pair inside a longer run does not count.
- `src/day12/main.rs:226-238` expects a system energy of 133, then 143 after
  one step. By the code's definition (potential times kinetic energy, summed
  over the moons) the values are 0 and 757. See `NBody.FirstSystemEnergy`
  and `NBody.FirstSystemStepEnergy`. The expected values are potential plus
  kinetic energy, summed over all moons. The code's definition is the one
  that meets the other energy test, 179 after ten steps
  (`NBody.SecondSystemEnergy`).

## Model

| member | source | states |
|---|---|---|
| Intcode.New | src/computer.rs:23-28 | A new machine starts at `ip` 0 with the given memory. |
| Intcode.Step | src/computer.rs:39-62 | Halt at opcode 99, `ComputeError` at any opcode other than 1, 2 and 99, and running exactly for 1 or 2 with all addresses in range. Halting and failing leave `ip` and memory unchanged. A running step advances `ip` by 4, keeps the memory length, and changes no cell except the destination. |
| Intcode.StepAdd | src/computer.rs:41-46 | Opcode 1 writes the sum of the words at the two operand addresses to the destination address. |
| Intcode.StepMultiply | src/computer.rs:47-52 | Opcode 2 writes the product of the words at the two operand addresses to the destination address. |
| Intcode.Run | src/computer.rs:30-37 | The run ends in a state where `step` halts, with the word at address 0 as the value, or in a state where `step` fails with the reported fault. Memory length is kept and `ip` only moves forward in multiples of 4. |
| Intcode.RunWithinBound | src/computer.rs:30-37 | From any `ip` within memory, the run is the iteration of `step` up to its first non-running step, reached within `(len - ip)/4 + 1` steps. |
| Intcode.RunToCompletion | src/computer.rs:30-37 | The loop computes the same outcome as `Run` from a new machine; when it finishes, the result is the final word at address 0. |
| Intcode.FirstExample | src/computer.rs:70-81 | The program halts with memory `[3500, 9, 10, 70, ...]`. |
| Intcode.SecondExample | src/computer.rs:84-88 | `[1,0,0,0,99]` halts as `[2,0,0,0,99]`. |
| Intcode.ThirdExample | src/computer.rs:91-95 | `[2,3,0,3,99]` halts as `[2,3,0,6,99]`. |
| Intcode.FourthExample | src/computer.rs:98-102 | `[2,4,4,5,99,0]` halts as `[2,4,4,5,99,9801]`. |
| Intcode.FifthExample | src/computer.rs:105-109 | The first add overwrites the opcode of the next instruction, which then runs as a multiply. The run halts at `ip` 8 with value 30. |
| Fuel.FuelRequired | src/day1/main.rs:6-12 | No fuel for a mass of 8 or less. From 9 on, at least `mass/3 - 2`, which is then at least 1. Never more than half the mass. |
| Fuel.FuelMonotone | src/day1/main.rs:6-12 | A heavier module never needs less fuel. |
| Fuel.SumFuel | src/day1/main.rs:14-26 | The loop's total is the sum of the fuel of every mass. |
| Fuel.TotalFuelAppend | src/day1/main.rs:22 | The total over two lists of masses is the sum of their totals. |
| Fuel.PickOut | src/day1/main.rs:15-23 | Removing one mass leaves the others. Their multiset and their total fall by that mass and its fuel. |
| Fuel.TotalFuelPermutation | src/day1/main.rs:15-23 | The total does not depend on the order of the masses. |
| Wires.XMod | src/day3/main.rs:19-25 | The horizontal part is in -1..1, and non-zero exactly for Right and Left. |
| Wires.YMod | src/day3/main.rs:26-32 | The vertical part is in -1..1, and non-zero exactly for Up and Down. |
| Wires.UnitStep | src/day3/main.rs:19-32 | Each direction is one unit along one axis: U=(0,1), R=(1,0), D=(0,-1), L=(-1,0). |
| Wires.Manhattan | src/day3/main.rs:67-69 | The distance is non-negative, zero only at the origin, and at least each coordinate's magnitude. |
| Wires.DirectionChar | src/day3/main.rs:45-61 | Each direction letter is read back as its direction. |
| Wires.ParseInstruction | src/day3/main.rs:44-64 | `split_at(1)` panics on an empty string or a multi-byte first character. Any first character other than U, R, D or L is an error. On success, the direction is the letter's and the magnitude is the rest parsed as a `u32`. A known letter followed by text that is not a `u32` is exactly the `BadMagnitude` error, so a known letter and a `u32` always parse. |
| Wires.ParseFormat | src/day3/main.rs:44-64 | Every move with a `u32` magnitude, written out, parses back to itself. |
| Wires.Segment | src/day3/main.rs:92-93 | A run of `n` unit steps occupies `n` points. |
| Wires.SegmentPoints | src/day3/main.rs:92-93 | The k-th point of a run of unit steps is the start plus `k+1` unit vectors. |
| Wires.PathLength | src/day3/main.rs:88-98 | The number of unit steps of a wire is the sum of its magnitudes. |
| Wires.PathEnd | src/day3/main.rs:88-98 | A wire's last point is the sum over its moves of magnitude times unit vector. |
| Wires.SegmentWalk | src/day3/main.rs:92-93 | A run of unit steps moves one unit at a time. |
| Wires.WalkConcat | src/day3/main.rs:88-98 | Two unit walks, the second starting where the first ends, make one unit walk. |
| Wires.PathIsUnitWalk | src/day3/main.rs:92-97 | Every point of a wire is one unit from the point before it, and the first is one unit from the origin. |
| Wires.LastVisitsSpec | src/day3/main.rs:96 | The step map has exactly the visited points as keys. Each maps to the step of its last visit, since later inserts overwrite. |
| Wires.RecordStep | src/day3/main.rs:93-96 | If the books record a path, then after one unit step they record the path extended by that point. |
| Wires.SegmentGrows | src/day3/main.rs:92-93 | One more unit step extends the run by the next point along the direction. |
| Wires.WalkStep | src/day3/main.rs:92-97 | After `k+1` unit steps, the books stand one unit further on and record the run extended by one point. |
| Wires.WalkSegment | src/day3/main.rs:92-97 | The inner loop moves `n` units along the direction. Its books record the path extended by the run of `n` points. |
| Wires.TraceWire | src/day3/main.rs:84-98 | The tracing loop ends at the wire's displacement. The distance travelled is the path length, the visited set is the set of path points, and the step map is the last-visit map. |
| Wires.ClosestIntersection | src/day3/main.rs:117-122 | No result exactly when the visited sets do not meet, where `main` panics at `unwrap`. Otherwise the result is the smallest sum of the two step counts over the crossings. |
| Wires.Better | src/day3/main.rs:119-121 | `min` keeps a value no larger than the new one or the best so far, and it is one of them. |
| Wires.BetterStep | src/day3/main.rs:119-121 | After one more point, the best so far is still the minimum over the points seen. |
| Wires.Crossing | src/day3/main.rs:84-122 | The same for two wires given as parsed moves. |
| Passwords.Utf8Width | src/day4/main.rs:4-6 | A character takes 1 to 4 bytes, and 1 exactly when it is ASCII. |
| Passwords.ByteLength | src/day4/main.rs:4-6 | The byte length is at least the character count, and equal to it exactly for ASCII text. |
| Passwords.FoldStaysFailed | src/day4/main.rs:10-17 | Once the fold has failed, it stays failed. |
| Passwords.FoldSpec | src/day4/main.rs:8-19 | The fold from a previous digit succeeds exactly on digit strings that never decrease and do not start below that digit. |
| Passwords.IsIncreasingSpec | src/day4/main.rs:8-19 | `is_increasing` holds exactly when every character is a digit and no digit is smaller than the one before. |
| Passwords.ContainsPair | src/day4/main.rs:25-41 | Panics exactly on fewer than two characters, or on two equal ones. Two different characters give false. |
| Passwords.ContainsPairSpec | src/day4/main.rs:25-41 | From three characters on, there is no panic. The answer is true exactly when some maximal run of equal characters has length two. |
| Passwords.LongRunIsNoPair | src/day4/main.rs:107 | `contains_pair("abbbbc")` is false: a pair inside a run of four does not count. |
| Passwords.RangeTestRedundant | src/day4/main.rs:54-60 | For every number the fold visits, its condition reduces to the three text predicates. |
| Passwords.PasswordIsSixDigits | src/day4/main.rs:56-60 | Only numbers from 100000 to 999999 can pass. |
| Passwords.BelowStep | src/day4/main.rs:54-55 | One more number adds one to the count exactly when it passes. |
| Passwords.CountStep | src/day4/main.rs:55-64 | The fold's closure adds one exactly for a password. |
| Passwords.CountPasswords | src/day4/main.rs:53-65 | The fold's count is the number of passwords in `lower..=upper`. |
| Passwords.IncreasingTests | src/day4/main.rs:74-84 | The `is_increasing` test cases. |
| Passwords.LengthTests | src/day4/main.rs:86-92 | The `is_correct_length` test cases. |
| Passwords.RangeTests | src/day4/main.rs:94-100 | The `is_in_range` test cases, both bounds inclusive. |
| Passwords.PairTests | src/day4/main.rs:104-108 | The `contains_pair` test cases other than line 107. |
| Orbits.ChainUnique | src/day6/main.rs:5-11 | The number of parent links from a body to `COM` is unique. |
| Orbits.DistanceFromRoot | src/day6/main.rs:5-11 | For a body whose parent chain reaches `COM`, the distance is that number of links. It is 0 only for `COM`. |
| Orbits.ParseOrbit | src/day6/main.rs:21-23 | A line splits at its first `)`. It fails exactly when there is none. |
| Orbits.Read | src/day6/main.rs:16-20 | The lines read are the prefix before the first empty line. |
| Orbits.InsertFails | src/day6/main.rs:21-24 | Building the map fails exactly when some line lacks a `)`. |
| Orbits.InsertKeys | src/day6/main.rs:21-24 | The map's keys are exactly the orbiters named by the lines. |
| Orbits.InsertLastWins | src/day6/main.rs:24 | Each orbiter maps to the orbitee of the last line naming it. |
| Orbits.BuildParents | src/day6/main.rs:14-25 | Building the map from the input's lines fails exactly when a line read lacks a `)`. |
| Orbits.BuildParentsSpec | src/day6/main.rs:14-25 | The built map's keys are exactly the orbiters of the lines read, each mapped to the orbitee of the last line naming it. |
| Orbits.SumDistancesPick | src/day6/main.rs:27 | The sum of distances does not depend on which body comes first. |
| Orbits.TotalOrbits | src/day6/main.rs:27 | The total is the sum of every key's distance to `COM`, in any iteration order. |
| Image.Digits | src/day8/main.rs:20-23 | Conversion succeeds exactly on all-digit text, giving each character's value in order. |
| Image.Chunks | src/day8/main.rs:24 | Every layer is non-empty and at most the layer length. All but the last have exactly that length. There are no layers exactly when there are no pixels. |
| Image.ChunksFlatten | src/day8/main.rs:24 | The layers, concatenated, are the original pixels. |
| Image.CountOf | src/day8/main.rs:26-29 | A pixel count never exceeds the layer's size. |
| Image.FewestZeros | src/day8/main.rs:26-27 | The chosen layer has no more zeros than any layer, and strictly fewer than every earlier one: the first minimum, as `min_by_key` picks. |
| Image.ChecksumWitness | src/day8/main.rs:26-29 | The layer `min_by_key` chooses gives the check value. |
| Image.Checksum | src/day8/main.rs:19-30 | No result exactly when the trimmed line has a non-digit or is empty, where the program panics. Otherwise the result is ones times twos in the first layer with the fewest zeros. |
| AsteroidField.LessIsStrictTotalOrder | src/day10/main.rs:7-11 | The derived order on `Point` (by `x`, then `y`) is irreflexive, asymmetric, transitive and total. |
| AsteroidField.RowPoints | src/day10/main.rs:65-68 | A line's points are exactly the indices of its `#` characters. |
| AsteroidField.FieldOf | src/day10/main.rs:61-70 | `(x, y)` is a point exactly when line `y`, trimmed, has `#` at index `x`. |
| AsteroidField.GetField | src/day10/main.rs:61-70 | Every point lies within the line count and within its trimmed line. |
| AsteroidField.GetFieldSpec | src/day10/main.rs:61-70 | `(x, y)` is in the field exactly when character `x` of trimmed line `y` is `#`. Any other character gives no point. |
| AsteroidField.IndentationIgnored | src/day10/main.rs:63 | Whitespace around a line does not shift its points. |
| PaintingRobot.Move | src/day11/main.rs:13-20 | A move is one unit: North is `+y`, South `-y`, East `+x`, West `-x`. |
| PaintingRobot.Bearing | src/day11/main.rs:9-10 | Each facing is a multiple of 90 degrees below 360. |
| PaintingRobot.BearingInjective | src/day11/main.rs:9-10 | Different facings have different bearings. |
| PaintingRobot.TurnTo | src/day11/main.rs:22-49 | A turn always changes the facing. Right adds 90 degrees and Left adds 270. |
| PaintingRobot.TurnsCancel | src/day11/main.rs:22-49 | Left then Right, or Right then Left, restores the facing. |
| PaintingRobot.FourTurns | src/day11/main.rs:22-49 | Four turns the same way restore the facing. |
| PaintingRobot.RightIsThreeLefts | src/day11/main.rs:22-49 | One right turn equals three left turns. |
| PaintingRobot.TurnsDiffer | src/day11/main.rs:22-49 | Left and Right give different facings. |
| PaintingRobot.Colour | src/day11/main.rs:90-93 | A painted panel reads as its paint; an unpainted one reads as black. |
| PaintingRobot.Step | src/day11/main.rs:76-97 | The current panel is painted white exactly for a non-zero colour output, and no other panel changes colour. The visited set gains the current panel, and every painted panel stays visited. The robot turns left for a zero turn output and right for any other, then moves one unit along its new facing. It sends 1 exactly when the new panel was already white, otherwise 0. |
| PaintingRobot.DriveInvariant | src/day11/main.rs:76-99 | Over any run of outputs, painted and visited panels stay the same set. The visited set only grows, by at most one panel per exchange. |
| PaintingRobot.DriveConcat | src/day11/main.rs:76-99 | Running two batches of outputs equals running them concatenated. |
| PaintingRobot.RightStep | src/day11/main.rs:83-88 | A right-turn output turns the robot right and moves it one panel along its new facing. |
| PaintingRobot.SquareMoves | src/day11/main.rs:13-49 | Four right turns restore the facing, and the four unit moves between them close a square. |
| PaintingRobot.SquareReturns | src/day11/main.rs:83-88 | Four right turns bring the robot back to its panel and facing. |
| Numbers.Abs | src/day12/main.rs:25-27 | The absolute value is the number or its negation, and never negative. |
| Numbers.SumBounds | src/day12/main.rs:66-68 | Each term is at most the sum, and the sum is zero exactly when every term is. |
| Numbers.SumOfFour | src/day12/main.rs:66-68 | The sum of four terms. |
| NBody.NewAsteroid | src/day12/main.rs:16-23 | A new moon has the given coordinates and zero velocity. |
| NBody.VectorEnergy | src/day12/main.rs:55-57 | Zero exactly for the zero vector, and at least each component's magnitude. |
| NBody.PotentialEnergy | src/day12/main.rs:25-27 | The vector energy of the position. |
| NBody.Energy | src/day12/main.rs:29-31 | Zero exactly for a moon at rest or at the origin. Otherwise at least the potential and at least the kinetic energy. |
| NBody.ProductBounds | src/day12/main.rs:29-31 | A product of naturals is zero exactly when a factor is, and at least each factor when the other is positive. |
| NBody.SystemEnergyBounds | src/day12/main.rs:66-68 | The system's energy is at least each moon's, and zero exactly when every moon's is. |
| NBody.NewAsteroidHasNoEnergy | src/day12/main.rs:16-31 | A moon just read has no energy. |
| NBody.RestingSystemHasNoEnergy | src/day12/main.rs:66-68 | A system at rest has no energy. |
| NBody.Pull | src/day12/main.rs:77-91 | One unit towards the other moon, or none when level. |
| NBody.PullAntisymmetric | src/day12/main.rs:77-91 | Two moons pull each other equally and oppositely. |
| NBody.Gravity | src/day12/main.rs:76-92 | The total pull is bounded by the number of moons. |
| NBody.GravitySign | src/day12/main.rs:76-92 | Moons all on one side can only pull towards that side. |
| NBody.GravityAppend | src/day12/main.rs:76-92 | The pull adds up over a split of the moons. |
| NBody.GravitySelf | src/day12/main.rs:77-91 | A moon does not pull on itself. |
| NBody.LineMove | src/day12/main.rs:116-129 | The velocity changes by the total pull, then the position changes by the new velocity. |
| NBody.StepLine | src/day12/main.rs:116-129 | Every moon keeps its place and moves against the system as it was before the step. |
| NBody.ColumnPull | src/day12/main.rs:116-129 | The pull of one moon on a group is the negation of the group's pull on it. |
| NBody.CrossPullAppend | src/day12/main.rs:116-129 | The pull on a group adds up over the pulling moons. |
| NBody.CrossPullAntisymmetric | src/day12/main.rs:116-129 | What one group does to another, the other does back negated. |
| NBody.ZeroPull | src/day12/main.rs:116-129 | No moons pull nothing. |
| NBody.MomentumOfMoves | src/day12/main.rs:116-129 | Moving the moons changes their total velocity by the total pull on them. |
| NBody.MomentumConserved | src/day12/main.rs:116-129 | A one-dimensional step keeps the total velocity. |
| NBody.Move | src/day12/main.rs:70-107 | On every axis, the velocity changes by the pull of all moons, then the coordinate changes by the new velocity. |
| NBody.SystemStep | src/day12/main.rs:70-107 | The moons keep their number and order, and each moves against the system as it was before the step. |
| NBody.SelfIsNoPull | src/day12/main.rs:70-107 | A moon's own contribution is zero, so its pull is below the number of moons. |
| NBody.StepBounds | src/day12/main.rs:93-104 | In a step each velocity component changes by less than the number of moons, and the position then adds the new velocity. |
| NBody.PositionsOfProject | src/day12/main.rs:116-143 | Seen along one axis, the one-dimensional positions are the moons' coordinates on that axis, in order. |
| NBody.StepProjects | src/day12/main.rs:70-129 | Along each axis the three-dimensional step is the one-dimensional step, as `main` assumes when it searches each axis separately. |
| NBody.SystemMomentumConserved | src/day12/main.rs:70-107 | The total velocity along each axis never changes. |
| NBody.Collect | src/day12/main.rs:38 | All components are collected exactly when every one parsed. |
| NBody.ParseAsteroid | src/day12/main.rs:37-44 | A piece that is not an `i32` panics, whatever the count. Any count other than 3 is an error. Otherwise the three components, in order, give a moon at rest. |
| NBody.FromComponents | src/day12/main.rs:38-43 | A missing component is a panic, a wrong count is an error, and three components give a moon at rest. |
| NBody.ComponentPadded | src/day12/main.rs:38 | Whitespace around an `i32` is ignored. |
| NBody.PaddedHasNoComma | src/day12/main.rs:38 | A padded number contains no comma. |
| NBody.ParseFormatted | src/day12/main.rs:37-44 | Any three `i32`s, written with commas and any whitespace, read back as the moon at rest there. |
| NBody.ParseThree | src/day12/main.rs:37-44 | Three comma-free pieces that parse give the moon at rest there. |
| NBody.SplitThree | src/day12/main.rs:38 | Three comma-free pieces joined with commas split back into those pieces. |
| NBody.ComponentsOfThree | src/day12/main.rs:38 | Three pieces that parse give their three components. |
| NBody.ComponentsOfEach | src/day12/main.rs:38 | The components are the parse of each piece, in order. |
| NBody.FromThree | src/day12/main.rs:39-40 | Three components give the new moon. |
| NBody.GravityOfFour | src/day12/main.rs:76-92 | The pull from four moons is the sum of the four pulls. |
| NBody.MoveIsMoveInFour | src/day12/main.rs:70-107 | A moon's step in a system of four, pull by pull. |
| NBody.StepOfFour | src/day12/main.rs:70-107 | A step of four moons, moon by moon. |
| NBody.StepOfFourIs | src/day12/main.rs:70-107 | A system of four steps to the moons each one moves to. |
| NBody.StepOfFourAt | src/day12/main.rs:70-107 | The same for one of the four moons. |
| NBody.SystemEnergyOfFour | src/day12/main.rs:66-68 | The energy of four moons is the sum of theirs. |
| NBody.Steps | src/day12/main.rs:250-252 | Any number of steps keeps the number of moons. |
| NBody.FirstSystemStep | src/day12/main.rs:204-223 | One step of the test system gives the listed moons. |
| NBody.FirstSystemEnergy | src/day12/main.rs:226-235 | The test system as read has energy 0, not the 133 the test expects. |
| NBody.FirstSystemStepEnergy | src/day12/main.rs:236-237 | After one step the energy is 757, not the 143 the test expects. |
| NBody.SecondSystemStep1 | src/day12/main.rs:250-251 | The first step of the second test system. |
| NBody.SecondSystemStep2 | src/day12/main.rs:250-251 | The second step. |
| NBody.SecondSystemStep3 | src/day12/main.rs:250-251 | The third step. |
| NBody.SecondSystemStep4 | src/day12/main.rs:250-251 | The fourth step. |
| NBody.SecondSystemStep5 | src/day12/main.rs:250-251 | The fifth step. |
| NBody.SecondSystemStep6 | src/day12/main.rs:250-251 | The sixth step. |
| NBody.SecondSystemStep7 | src/day12/main.rs:250-251 | The seventh step. |
| NBody.SecondSystemStep8 | src/day12/main.rs:250-251 | The eighth step. |
| NBody.SecondSystemStep9 | src/day12/main.rs:250-251 | The ninth step. |
| NBody.SecondSystemStep10 | src/day12/main.rs:250-251 | The tenth step. |
| NBody.SecondSystemTenSteps | src/day12/main.rs:241-252 | Ten steps of the second test system reach its tenth state. |
| NBody.SecondSystemEnergy | src/day12/main.rs:253 | The energy after ten steps is 179. |
| NBody.ExampleIsPadded | src/day12/main.rs:185-191 | The example line is `24`, `12` and `42` with whitespace around each. |
| NBody.ParseExample | src/day12/main.rs:185-191 | `"  24,  12   , 42 "` reads as the moon at rest at (24, 12, 42). |
| Text.TrimStart | src/day10/main.rs:63 | Drops exactly the longest whitespace prefix. |
| Text.TrimEnd | src/day10/main.rs:63 | Drops exactly the longest whitespace suffix. |
| Text.TrimSplits | src/day10/main.rs:63 | Any text is whitespace, its trim, and whitespace. The trim has no whitespace at either end. |
| Text.TrimPieces | src/day10/main.rs:63 | Any text is the whitespace `trim_start` drops, then the trim, then the rest of the trimmed start. |
| Text.TrimPiecesWhitespace | src/day10/main.rs:63 | Both dropped pieces are whitespace. |
| Text.TrimEnds | src/day10/main.rs:63 | A non-empty trim has no whitespace at either end. |
| Text.TrimStartSplit | src/day10/main.rs:63 | The text is its dropped prefix followed by `trim_start`. |
| Text.TrimEndSplit | src/day10/main.rs:63 | The text is `trim_end` followed by the dropped suffix. A non-empty `trim_end` starts where the text starts. |
| Text.TrimIgnoresPadding | src/day10/main.rs:63 | Extra whitespace around a text leaves its trim unchanged. |
| Text.TrimUnpadded | src/day12/main.rs:38 | Text with no whitespace at either end is its own trim. |
| Text.Split | src/day12/main.rs:38 | At least one piece, and no piece contains the separator. |
| Text.SplitJoin | src/day12/main.rs:38 | The pieces rejoined with the separator give the original text. |
| Text.SplitFromSkips | src/day12/main.rs:38 | Text before a separator stays in the current piece. |
| Text.SplitFirst | src/day12/main.rs:38 | Splitting at the first separator gives its prefix, then the split of the rest. |
| Text.SplitNone | src/day12/main.rs:38 | Text without the separator is one piece. |
| Text.Lines | src/day10/main.rs:63 | No line contains a line feed, and empty text has no lines. |
| Text.DropCarriageReturn | src/day10/main.rs:63 | A line ending in a carriage return loses exactly that character; any other line is unchanged. |
| Text.LinesNone | src/day10/main.rs:63 | Text without a line feed is one line, or no line when empty. |
| Text.LinesCons | src/day10/main.rs:63 | Text that starts with a line and a line feed yields that line, less a trailing carriage return, followed by the lines of the rest. |
| Text.DigitChar | src/day4/main.rs:56 | The digit character of a value below 10 is a digit with that value. |
| Text.ParseUnsigned | src/day3/main.rs:48 | Exactly the texts of one or more decimal digits, optionally after a `+`, whose value is at most the maximum parse. The value is that of the digits. |
| Text.LeadingZeros | src/day3/main.rs:48 | Leading zeros do not change the value of a digit string. |
| Text.ParseDigits | src/day3/main.rs:48 | Digits within the maximum parse as their value, with or without a leading `+`. |
| Text.PaddedDigits | src/day3/main.rs:48 | Digits within the maximum, after any number of zeros and an optional `+`, parse as the digits' value. |
| Text.ParseLeadingZeros | src/day3/main.rs:48 | A number written with leading zeros, with or without `+`, parses back to the number. |
| Text.ParseSigned | src/day12/main.rs:38 | Exactly the texts of one or more decimal digits, optionally after a `+` or `-`, whose signed value is within the bounds parse. The value is that of the digits, negated after a `-`. |
| Text.NatToString | src/day4/main.rs:56 | The digits of a number, denoting it, without a leading zero. |
| Text.NatToStringShort | src/day4/main.rs:56-57 | Below `10^k` a number takes at most `k` digits. |
| Text.NatToStringLong | src/day4/main.rs:56-57 | From `10^k` on a number takes more than `k` digits. |
| Text.ParseNatToString | src/day3/main.rs:48 | Rendering a number in range and parsing it gives the number back. |
| Text.ParseIntToString | src/day12/main.rs:38 | The same for signed numbers. |
| Text.IntToStringShape | src/day4/main.rs:56 | The text of an integer is digits after an optional `-`, ending in a digit. |

## Left out

- Overflow: all arithmetic is on unbounded integers. Wrap-around and overflow panics are not modelled. This covers `usize` in `src/computer.rs`, `i32` in days 3, 11 and 12, `i64` in day 4, and the `u64` to `i64` cast in day 1. Parse range checks are modelled, because they are error paths: `u32` magnitudes in day 3, `i32` components in day 12.
- Fuel.FuelRequired takes a natural mass, as the `u64` parameter does. The `i64` cast that could make a huge mass negative is not modelled.
- Fuel.SumFuel takes the masses already parsed. Reading stdin up to the first empty line and the `parse()?` error are left out, and so is the `println!`.
- Wires: `read_wire` is left out. It does stdin reading and a comma split of the line. The printing in `main` is left out too.
- Wires.ClosestIntersection requires every visited point to have a step count. `Wires.TraceWire` guarantees this, and `Wires.Crossing` has no precondition.
- Hash set and map iteration order in days 3 and 6, and B-tree order in day 10: the model uses sets and maps, whose results do not depend on order.
- Passwords: reading the two bounds from stdin and printing the count are left out. `CountPasswords` takes the bounds.
- Orbits.DistanceFromRoot requires the parent chain to reach `COM`. Otherwise the program panics on a missing parent or recurses without end.
- Orbits.TotalOrbits requires every key to be rooted, for the same reason.
- Image.Checksum takes the line already read. Reading stdin and printing are left out.
- Day 10: the angle logic (`Vector`, `get_angles`, `best_asteroid`, `ith_asteroid`) is floating point and is left out. Only `get_field` and the `Point` ordering are modelled.
- Day 11: the program that drives the robot runs in another thread behind channels, and that machine is not part of this model. So are the initial `0` sent before the loop and the `println!` of the visited count. `PaintingRobot.Drive` feeds the robot any sequence of output pairs instead.
- Day 12: the cycle search in `main` (lines 143-176) is unbounded search plus output and is left out. `NBody.StepProjects` proves the fact it relies on. The `asteroid_move` test calls a method that does not exist and is left out.
- NBody.ParseAsteroid models the `unwrap` panic on a bad component as `Err(Unparsable)`, and the `SimpleError` as `Err(WrongCount)`.
- The channel-driven machine used by days 5, 7, 9, 11 and 13 is not part of this model: input and output opcodes, addressing modes, threads. Neither are the drivers of days 2, 5, 7, 9 and 13. `src/computer.rs` itself has only opcodes 1, 2 and 99.
- Text: only the parts of Rust's string functions the programs reach are modelled. Whitespace is Unicode `White_Space`. Integer parsing accepts an optional sign and ASCII digits.
