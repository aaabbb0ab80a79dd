# C teaching scripts: sensor registry and keyword demonstrations

A Dafny model of the deterministic logic in a set of C teaching programs:

- **Sensor registry** (`c_basics/project3/main.c`). This is a fixed array of ten sensors with an
  `unsigned char` count. `init_sensor` appends one sensor and re-prompts until the operator enters
  a valid sensor type. `process_sensor_data` flags sensors of unknown type as ERROR. `display_sensors`
  lists the sensors, and a one-character menu in `main` drives all three. The C union of per-type
  configuration becomes the tagged datatype `SensorConfig`. Console input is an explicit parameter:
  a `SensorForm` holds what the operator types for one sensor, and a `Command` holds one menu
  choice. Module `Sensors`, file `sensors.dfy`.
- **Control flow** (`c_basics/keywords/control_flow.c`). This covers the letter-grade `switch`, the
  `break` loop (first even number), the `continue` loop (odd numbers), the `goto` retry, and the
  nested loop that skips the diagonal and breaks out of the inner loop. Each demonstration returns
  what it prints, as a sequence. Module `ControlFlow`.
- **Storage classes** (`c_basics/keywords/storage_classes.c`). `fast_calculation` is a loop whose
  invariant ties it to the triangular sum. `count_calls` keeps its `static` counter in an explicit
  state value. Module `StorageClasses`.
- **Modifiers** (`module3/keywords/modifiers.c`). This covers `get_status`, the read-only walk of
  `print_array`, and the `sizeof` element count. Module `Modifiers`.
- **Advanced types** (`module3/keywords/advanced_types.c`). This covers the `Day` and `Status`
  enumerations with their integer values, the day classification, and `add`/`multiply` called
  through the `Calculator` function-pointer type. Module `AdvancedTypes`.
- **Data types** (`module3/keywords/data_types.c`). This covers the C integer widths as subset types,
  the demonstration's limit literals, and `add_numbers`. Module `DataTypes`; it is shared by the
  other modules.

Signed overflow is undefined behaviour in C. Every operation that could overflow an `int` has a
precondition that keeps it in range, and the model never wraps around.

## Model

| member | source | states |
|---|---|---|
| Sensors.TypeCode | c_basics/project3/main.c:8-13 | TEMPERATURE is 0, HUMIDITY 1 and PRESSURE 2, each if and only if; the value is -1 (UNK) exactly for an unknown type |
| Sensors.ConfigFor | c_basics/project3/main.c:108-128 | an answer selects TEMPERATURE, HUMIDITY or PRESSURE by its code and reads only that type's follow-up fields; any other code becomes UNK |
| Sensors.AcceptedType | c_basics/project3/main.c:104-129 | the retry loop stops at the first answer with a valid type; every answer before it was rejected; if none is valid the loop never ends |
| Sensors.StoredName | c_basics/project3/main.c:100-101 | the stored name is the prefix of the typed word of length min(length, 19): a word that fits is stored whole, a longer one keeps exactly its first 19 characters |
| Sensors.InitSensor | c_basics/project3/main.c:89-132 | a full registry is refused with nothing changed; otherwise only slot `count` is written, with the typed ID and name, the first valid type's configuration and status ACTIVE, and `count` grows by exactly one |
| Sensors.ProcessSensor | c_basics/project3/main.c:159-178 | an unknown-type sensor gets status ERROR; a known-type sensor is left as it was; ID, name and type never change |
| Sensors.ProcessIdempotent | c_basics/project3/main.c:159-178 | processing a sensor twice gives the same result as processing it once |
| Sensors.ProcessFlagsExactlyUnknown | c_basics/project3/main.c:161-177 | a sensor not already in ERROR ends in ERROR if and only if its type code is UNK |
| Sensors.ProcessWhere | c_basics/project3/main.c:69-72 | the selected sensors below `n` are processed, and every other slot is unchanged |
| Sensors.ReadAll | c_basics/project3/main.c:68-73 | menu choice 2 processes exactly the slots below `count`, keeps `count`, and leaves the unused slots as they were |
| Sensors.DisplaySensors | c_basics/project3/main.c:181-208 | displaying the sensors processes only the HUMIDITY sensors, which leaves the modelled registry unchanged |
| Sensors.MenuStep | c_basics/project3/main.c:58-83 | '4' exits with the registry unchanged; '1' continues with the registry init_sensor produces, or hangs exactly when init_sensor re-prompts forever; '2' continues with every in-use sensor processed; '3' changes nothing; any other character loops with nothing changed; '1' on a full registry changes nothing; every step keeps the capacity invariant and `count` grows by at most one |
| Sensors.Run | c_basics/project3/main.c:52-86 | for any sequence of menu commands, every reached registry has `count <= 10` and ten slots, `count` never decreases, and the loop exits only at a '4' |
| Sensors.EmptyRegistryHealthy | c_basics/project3/main.c:53-54 | the zero-initialised array with `count` 0 meets the invariant: every slot reads as an ACTIVE TEMPERATURE sensor |
| Sensors.MenuStepKeepsHealthy | c_basics/project3/main.c:64-82 | every menu step keeps all slots of a known type and ACTIVE |
| Sensors.NoSensorEverFlagged | c_basics/project3/main.c:104-131 | init_sensor stores only known types, so starting from a healthy registry no menu sequence ever sets a sensor to ERROR |
| Sensors.EleventhSensorRefused | c_basics/project3/main.c:92-95 | once ten sensors exist, menu choice 1 leaves the registry exactly as it was |
| ControlFlow.GradePoints | c_basics/keywords/control_flow.c:9-33 | the result lies in -1..4; it is non-negative exactly for the letters A, B, C, D and F in either case, and then it is that letter's position in "FDCBA" |
| ControlFlow.GradeTable | c_basics/keywords/control_flow.c:11-31 | A/a give 4, B/b 3, C/c 2, D/d 1 and F/f 0; E and e give -1 |
| ControlFlow.GradeCaseInsensitive | c_basics/keywords/control_flow.c:13-27 | a lower-case letter and its upper-case form give the same points |
| ControlFlow.GradeReport | c_basics/keywords/control_flow.c:128-132 | main prints points exactly when the character is a grade letter, and the printed value is that letter's points |
| ControlFlow.StudentGradeReport | c_basics/keywords/control_flow.c:127-132 | the demonstration's grade 'B' is reported as 3 points |
| ControlFlow.FirstEven | c_basics/keywords/control_flow.c:69-74 | the break loop returns an even value in range, every value before it is odd, and it returns nothing only when the whole range is odd |
| ControlFlow.BreakDemo | c_basics/keywords/control_flow.c:67-74 | the loop over 11..20 stops at 12 |
| ControlFlow.OddsBetweenSpec | c_basics/keywords/control_flow.c:79-84 | the reference list holds exactly the odd numbers of the range, in strictly ascending order |
| ControlFlow.OddNumbers | c_basics/keywords/control_flow.c:79-84 | the continue loop prints exactly the odd numbers of the range, in strictly ascending order |
| ControlFlow.ContinueDemo | c_basics/keywords/control_flow.c:78-84 | the loop over 1..10 prints 1, 3, 5, 7, 9 |
| ControlFlow.Retry | c_basics/keywords/control_flow.c:91-100 | the goto loop makes max(limit, 1) attempts, numbered 1, 2, ... in order |
| ControlFlow.GotoDemo | c_basics/keywords/control_flow.c:88-103 | the demonstration makes exactly 3 attempts and then falls through |
| ControlFlow.InnerTraceShape | c_basics/keywords/control_flow.c:149-159 | a row visits consecutive columns; only the diagonal cell is marked diagonal; plain cells are within the bound; the only breaking cell is past the bound and is the last visited; a row stops early only at a break |
| ControlFlow.InnerLoop | c_basics/keywords/control_flow.c:149-159 | the imperative inner loop, with its continue and break, prints the row the reference definition describes; the coordinate sum `i + j` is required to fit in an `int` |
| ControlFlow.NestedLoops | c_basics/keywords/control_flow.c:146-160 | the nested loops print, row by row, each row's header followed by that row's inner-loop trace; a grid at most half the `int` range wide keeps every `i + j` in range |
| ControlFlow.NestedDemo | c_basics/keywords/control_flow.c:146-160 | the 3-by-3 demonstration with bound 4 prints diagonals at (1,1) and (2,2) and breaks at (2,3) and (3,2) |
| StorageClasses.TriangularClosedForm | c_basics/keywords/storage_classes.c:29-39 | the sum 1 + ... + n equals n(n+1)/2 for n >= 0, and it is 0 for n <= 0 |
| StorageClasses.TriangularMonotone | c_basics/keywords/storage_classes.c:35-37 | each partial sum of the loop is bounded by the final sum, so none of them overflows |
| StorageClasses.FastCalculation | c_basics/keywords/storage_classes.c:29-39 | the result is n(n+1)/2 for n >= 0, and 0 when the loop body never runs because n <= 0 |
| StorageClasses.SumToHundred | c_basics/keywords/storage_classes.c:72-73 | fast_calculation(100) is 5050 |
| StorageClasses.CountCalls | c_basics/keywords/storage_classes.c:21-26 | each call increases the persistent count by exactly one and reports the new count |
| StorageClasses.CallsMade | c_basics/keywords/storage_classes.c:53-55 | after k calls starting from 0, the counter holds k |
| StorageClasses.FourthCallReportsFour | c_basics/keywords/storage_classes.c:84 | the fourth call, after three earlier ones, reports 4 |
| Modifiers.GetStatus | module3/keywords/modifiers.c:28-36 | the result is one of four messages: "Success" if and only if the code is 0, "Warning" for 1, "Error" for 2, and "Unknown" for every other code, negative codes included |
| Modifiers.StatusCode | module3/keywords/modifiers.c:31-34 | reading a message back yields a code exactly for the three named messages, and that code is the one `get_status` maps to the message |
| Modifiers.StatusRoundTrip | module3/keywords/modifiers.c:31-34 | codes 0, 1 and 2 survive the trip through their message; every other code maps to the message that names no code |
| Modifiers.StatusInjectiveOnNamedCodes | module3/keywords/modifiers.c:31-33 | two named codes get the same message if and only if they are equal |
| Modifiers.PrintArray | module3/keywords/modifiers.c:17-24 | prints arr[0], ..., arr[size-1] in index order, and prints nothing when size is not positive |
| Modifiers.PrintTestArray | module3/keywords/modifiers.c:137-138 | print_array on {1, 2, 3, 4, 5} with size 5 prints 1 2 3 4 5 |
| Modifiers.ArrayLength | module3/keywords/modifiers.c:100 | sizeof(array) / sizeof(element) gives back the element count, whatever the element size |
| Modifiers.NumbersLength | module3/keywords/modifiers.c:91-100 | the element count of `int numbers[10]` is 10 |
| AdvancedTypes.DayValue | module3/keywords/advanced_types.c:10-18 | each day's value is its position in declaration order, MONDAY = 0 through SUNDAY = 6 |
| AdvancedTypes.DayOf | module3/keywords/advanced_types.c:10-18 | an integer denotes a day if and only if it lies in 0..6 |
| AdvancedTypes.DayRoundTrip | module3/keywords/advanced_types.c:10-18 | days and the values 0..6 correspond one to one, in both directions |
| AdvancedTypes.StatusValue | module3/keywords/advanced_types.c:21-26 | ERROR is -1, SUCCESS 0, PENDING 1 and COMPLETE 2, each if and only if |
| AdvancedTypes.StatusOf | module3/keywords/advanced_types.c:21-26 | an integer denotes a Status if and only if it lies in -1..2 |
| AdvancedTypes.StatusRoundTrip | module3/keywords/advanced_types.c:21-26 | ERROR = -1, SUCCESS = 0, PENDING = 1 and COMPLETE = 2 correspond one to one with -1..2, in both directions |
| AdvancedTypes.Classify | module3/keywords/advanced_types.c:73-87 | MONDAY to THURSDAY (values 0..3) are weekdays, FRIDAY (4) is TGIF, and SATURDAY and SUNDAY (5..6) are the weekend; each day gets exactly one class |
| AdvancedTypes.TodayIsTgif | module3/keywords/advanced_types.c:66-87 | the demonstration's FRIDAY has value 4 and takes the TGIF branch |
| AdvancedTypes.Add | module3/keywords/advanced_types.c:58 | subtracting `a` from the result gives back `b` |
| AdvancedTypes.Multiply | module3/keywords/advanced_types.c:59 | dividing the product by a nonzero `b` gives back `a` with remainder 0, which fixes it as a*b; a zero `b` gives 0; the product is zero if and only if a factor is |
| AdvancedTypes.CalculatorDemo | module3/keywords/advanced_types.c:148-152 | calling through a Calculator first aimed at add, then at multiply, with (5, 3) gives 8 and then 15 |
| DataTypes.AddNumbers | module3/keywords/data_types.c:14-16 | subtracting either argument from the result gives back the other |
| DataTypes.AddNumbersExample | module3/keywords/data_types.c:25-33 | add_numbers(25, 95) is 120 |
| DataTypes.Pow2Sum | module3/keywords/data_types.c:65-80 | powers of two multiply by adding exponents; the width limits below are derived from this |
| DataTypes.LiteralsAreLimits | module3/keywords/data_types.c:65-80 | 255 and 4294967295 are the 8- and 32-bit unsigned maxima; -128 and -32768 are the 8- and 16-bit signed minima; 18446744073709551615 is the 64-bit unsigned maximum |
| DataTypes.TypeBoundsMatchWidths | module3/keywords/data_types.c:65-80 | the bounds of the subset types used for char, short, int, unsigned int and unsigned long equal the two's-complement formulas for their widths |
| DataTypes.UnsignedDoublesPositiveRange | module3/keywords/data_types.c:96 | an unsigned maximum equals twice the signed maximum of the same width plus one, and both types hold equally many values |

## Left out

- All console I/O: `scanf` and `printf`. Input is a parameter (`SensorForm`, `Command`, the arguments of the
  demonstrations), and output is returned as values or event sequences.
- Sensors.StoredName: `%19s` reads one whitespace-free word. Characters past the 19th stay in the input
  stream for the next `scanf`. The model takes the word as given and keeps no leftover input.
- Sensors.Run: the model stops when the commands run out. At end of input the C `scanf(" %c")` leaves
  `choice` unchanged, so the C loop repeats the last choice forever.
- Sensors.InitSensor: when no valid type ever comes, the C function has already written the ID and name
  into slot `count` but never returns. The model reports `Reprompting` and keeps no registry for that case.
- Sensors.AcceptedType: the model accepts `TypeAnswer` values that are already parsed. A `scanf` that fails
  to parse, which leaves the stored type unchanged, is not modelled.
- Sensor readings. This covers `random_float_range`, `rand()`/`srand(time(NULL))`, the float `reading`
  fields, and what `read_sensor_data` and `display_sensors` print. These are floating point and
  randomness. The HUMIDITY `calibration` factor is a Dafny `real` that the model only stores.
- Union type-punning, both in the sensor union and in the `union Data` demonstration. The tagged
  datatype makes reading an inactive member impossible by construction.
- `demonstrate_loops` and the if/else temperature demonstration in `control_flow.c`. They only print fixed
  text.
- The `volatile`, `const`-pointer and `sizeof` printouts in `modifiers.c`. The sizes are
  platform-dependent, and the model takes the element size as a parameter.
- `struct Student`, `Point` and `Rectangle` in `advanced_types.c`. They only initialise and print fields; nothing is computed from them.
- The `global_counter`, `auto` and `register` printouts in `storage_classes.c`. They only print fixed values.
- Signed `int` overflow in `fast_calculation`, `add`, `multiply`, `add_numbers`, `count_calls` and the loop
  counters. It is undefined behaviour in C, so each is excluded by a precondition.
- The networking server, the float calculators and their tests, the deliberately buggy array workbook,
  and the commented-out practice exercise. These are not part of this model.
