/**
 * The sensor registry of the sensor-management program: a fixed array of ten
 * sensors with an `unsigned char` count, `init_sensor` (append one sensor,
 * re-prompting until a valid sensor type is entered), `process_sensor_data`
 * (status logic only), `display_sensors`, and the single-character menu of
 * `main` that drives them.
 *
 * The C union of per-type configuration becomes a tagged datatype, so only
 * the fields of the chosen type exist. Console input is an explicit
 * parameter: a `SensorForm` holds what the operator types for one sensor,
 * and a `Command` holds one menu choice. Readings (floating point, filled
 * from `rand()`) and all printing are outside the model.
 */
module Sensors {
  import opened Options
  import opened DataTypes

  /** `Sensor sensors[10]` in `main`, the `max_sensors` it passes to `init_sensor`. */
  const Capacity := 10

  /** `scanf("%19s", ...)` keeps at most 19 characters of the name. */
  const NameWidth := 19

  /** `SensorStatus`: ACTIVE = 0, INACTIVE = 1, ERROR = 2. */
  datatype SensorStatus = Active | Inactive | Error

  /**
   * The sensor type together with its configuration. `Unknown` stands for
   * any type value outside TEMPERATURE, HUMIDITY and PRESSURE (`UNK`).
   * `calibration` stands for the C `float`; no arithmetic is done on it.
   */
  datatype SensorConfig =
    | Temperature(minRange: Int16, maxRange: Int16)
    | Humidity(calibration: real)
    | Pressure(altitude: Int16)
    | Unknown

  /** The `SensorType` value of a configuration: UNK = -1, TEMPERATURE = 0, ... */
  function TypeCode(c: SensorConfig): (code: int)
    ensures code == 0 <==> c.Temperature?
    ensures code == 1 <==> c.Humidity?
    ensures code == 2 <==> c.Pressure?
    ensures code == -1 <==> c.Unknown?
  {
    match c
    case Temperature(_, _) => 0
    case Humidity(_) => 1
    case Pressure(_) => 2
    case Unknown => -1
  }

  /** The type codes `init_sensor` accepts. */
  predicate IsKnownCode(code: int) {
    0 <= code <= 2
  }

  datatype Sensor = Sensor(id: UInt8, name: string, config: SensorConfig, status: SensorStatus)

  /** A slot of `Sensor sensors[10] = {0}`: every field zero, which reads as a TEMPERATURE sensor with status ACTIVE. */
  const BlankSensor := Sensor(0, "", Temperature(0, 0), Active)

  /** The array of `main` together with its `count`. */
  datatype Registry = Registry(slots: seq<Sensor>, count: UInt8)

  /** The capacity invariant: ten slots, of which the first `count` are in use. */
  predicate Valid(r: Registry) {
    |r.slots| == Capacity && r.count <= Capacity
  }

  /** The state `main` starts in. */
  const EmptyRegistry := Registry(seq(Capacity, _ => BlankSensor), 0)

  /**
   * One answer at the sensor-type prompt: the type value entered, and the
   * values the operator gives to whichever follow-up questions that type
   * asks (minimum and maximum range for TEMPERATURE, the calibration factor
   * for HUMIDITY, the altitude compensation for PRESSURE).
   */
  datatype TypeAnswer = TypeAnswer(code: Int32, minRange: Int16, maxRange: Int16, calibration: real, altitude: Int16)

  /**
   * The configuration one answer produces: only the fields of the chosen
   * type are read; an unrecognised value becomes UNK.
   */
  function ConfigFor(a: TypeAnswer): (c: SensorConfig)
    ensures TypeCode(c) == if IsKnownCode(a.code) then a.code else -1
    ensures c.Temperature? ==> c.minRange == a.minRange && c.maxRange == a.maxRange
    ensures c.Humidity? ==> c.calibration == a.calibration
    ensures c.Pressure? ==> c.altitude == a.altitude
  {
    match a.code
    case 0 => Temperature(a.minRange, a.maxRange)
    case 1 => Humidity(a.calibration)
    case 2 => Pressure(a.altitude)
    case _ => Unknown
  }

  /**
   * The `do ... while (!is_valid_input)` loop: the position of the answer it
   * stops at, which is the first one with a valid type. `None` means every
   * answer was rejected, and the C loop would keep prompting.
   */
  function AcceptedType(answers: seq<TypeAnswer>): (r: Option<nat>)
    ensures r.Some? ==> r.value < |answers| && IsKnownCode(answers[r.value].code)
    ensures r.Some? ==> forall k :: 0 <= k < r.value ==> !IsKnownCode(answers[k].code)
    ensures r.None? ==> forall k :: 0 <= k < |answers| ==> !IsKnownCode(answers[k].code)
  {
    if |answers| == 0 then None
    else if IsKnownCode(answers[0].code) then Some(0)
    else match AcceptedType(answers[1..])
      case None => None
      case Some(k) => Some(k + 1)
  }

  /** What the operator types for one `init_sensor`: the ID, the name, and the type answers in order. */
  datatype SensorForm = SensorForm(id: UInt8, name: string, types: seq<TypeAnswer>)

  /** The name as `%19s` stores it. */
  function StoredName(name: string): (s: string)
    ensures |s| == if |name| <= NameWidth then |name| else NameWidth
    ensures s <= name
    ensures |name| <= NameWidth ==> s == name
  {
    if |name| <= NameWidth then name else name[..NameWidth]
  }

  /**
   * How an `init_sensor` call ends: refused because the registry is full,
   * a sensor added, or stuck re-prompting for a valid type forever.
   */
  datatype InitOutcome = RegistryFull | Added(registry: Registry) | Reprompting

  /** The sensor `init_sensor` builds from a form whose accepted type answer is at `k`. */
  function NewSensor(form: SensorForm, k: nat): (s: Sensor)
    requires k < |form.types|
    requires IsKnownCode(form.types[k].code)
  {
    Sensor(form.id, StoredName(form.name), ConfigFor(form.types[k]), Active)
  }

  /**
   * `init_sensor(sensors, &count, max_sensors)`. When `count >= max_sensors`
   * nothing changes. Otherwise only slot `count` is written, with the form's
   * ID and name, the configuration of the first valid type answer and status
   * ACTIVE, and `count` goes up by one. The array must hold at least
   * `max_sensors` slots.
   */
  function InitSensor(reg: Registry, maxSensors: UInt8, form: SensorForm): (out: InitOutcome)
    requires maxSensors <= |reg.slots|
    ensures out.RegistryFull? <==> reg.count >= maxSensors
    ensures out.Reprompting? <==> reg.count < maxSensors && AcceptedType(form.types).None?
    ensures out.Added? ==>
      && out.registry.count == reg.count + 1
      && |out.registry.slots| == |reg.slots|
      && (forall k :: 0 <= k < |reg.slots| && k != reg.count ==> out.registry.slots[k] == reg.slots[k])
    ensures out.Added? ==>
      var s := out.registry.slots[reg.count];
      && s.id == form.id
      && s.name == StoredName(form.name)
      && s.status == Active
      && !s.config.Unknown?
      && AcceptedType(form.types).Some?
      && s.config == ConfigFor(form.types[AcceptedType(form.types).value])
  {
    if reg.count >= maxSensors then RegistryFull
    else match AcceptedType(form.types)
      case None => Reprompting
      case Some(k) =>
        Added(Registry(reg.slots[reg.count := NewSensor(form, k)], reg.count + 1))
  }

  /**
   * `process_sensor_data`, status logic only: a sensor of unknown type is
   * flagged ERROR; a known type keeps its status (its reading is refreshed,
   * which the model does not keep).
   */
  function ProcessSensor(s: Sensor): (r: Sensor)
    ensures r.id == s.id && r.name == s.name && r.config == s.config
    ensures s.config.Unknown? ==> r.status == Error
    ensures !s.config.Unknown? ==> r == s
  {
    if s.config.Unknown? then s.(status := Error) else s
  }

  /** Processing twice is the same as processing once. */
  lemma ProcessIdempotent(s: Sensor)
    ensures ProcessSensor(ProcessSensor(s)) == ProcessSensor(s)
  {
  }

  /** A sensor that was not already in ERROR ends in ERROR exactly when its type is unknown. */
  lemma ProcessFlagsExactlyUnknown(s: Sensor)
    requires s.status != Error
    ensures ProcessSensor(s).status == Error <==> TypeCode(s.config) == -1
  {
  }

  /**
   * Applies `process_sensor_data` to every slot below `n` that `selected`
   * picks, leaving all other slots alone.
   */
  function ProcessWhere(slots: seq<Sensor>, n: nat, selected: Sensor -> bool): (r: seq<Sensor>)
    requires n <= |slots|
    ensures |r| == |slots|
    ensures forall k :: 0 <= k < |slots| ==>
      r[k] == if k < n && selected(slots[k]) then ProcessSensor(slots[k]) else slots[k]
  {
    if n == 0 then slots
    else
      var prior := ProcessWhere(slots, n - 1, selected);
      if selected(slots[n - 1]) then prior[n - 1 := ProcessSensor(slots[n - 1])] else prior
  }

  /** Menu choice 2: every sensor in use is read and processed, in index order. */
  function ReadAll(reg: Registry): (r: Registry)
    requires reg.count <= |reg.slots|
    ensures r.count == reg.count
    ensures |r.slots| == |reg.slots|
    ensures forall k :: 0 <= k < |reg.slots| ==>
      r.slots[k] == if k < reg.count then ProcessSensor(reg.slots[k]) else reg.slots[k]
  {
    reg.(slots := ProcessWhere(reg.slots, reg.count, _ => true))
  }

  /**
   * Menu choice 3, `display_sensors`: only HUMIDITY sensors are read and
   * processed on the way, and processing a known type changes nothing the
   * model keeps, so the registry comes back as it was.
   */
  function DisplaySensors(reg: Registry): (r: Registry)
    requires reg.count <= |reg.slots|
    ensures r == reg
  {
    var r := reg.(slots := ProcessWhere(reg.slots, reg.count, (s: Sensor) => s.config.Humidity?));
    assert r.slots == reg.slots;
    r
  }

  /** One choice at the menu prompt, and the form typed if choice 1 asks for one. */
  datatype Command = Command(choice: char, form: SensorForm)

  /** How one pass of the menu loop ends. */
  datatype MenuOutcome = Continue(registry: Registry) | Exit(registry: Registry) | Stuck

  /**
   * One pass of the `do { ... } while (1)` menu: '1' initialises a sensor
   * with `max_sensors` = 10, '2' reads and processes every sensor, '3'
   * displays them, '4' ends the program, and any other character is refused
   * and the loop goes round again with nothing changed.
   */
  function MenuStep(reg: Registry, cmd: Command): (out: MenuOutcome)
    requires Valid(reg)
    ensures out.Exit? <==> cmd.choice == '4'
    ensures out.Stuck? <==> cmd.choice == '1' && InitSensor(reg, Capacity, cmd.form).Reprompting?
    ensures out.Stuck? ==> reg.count < Capacity
    ensures cmd.choice == '1' && InitSensor(reg, Capacity, cmd.form).Added? ==>
      out == Continue(InitSensor(reg, Capacity, cmd.form).registry)
    ensures cmd.choice == '2' ==> out == Continue(ReadAll(reg))
    ensures out.Exit? ==> out.registry == reg
    ensures cmd.choice !in "1234" ==> out == Continue(reg)
    ensures cmd.choice == '3' ==> out == Continue(reg)
    ensures cmd.choice == '1' && reg.count == Capacity ==> out == Continue(reg)
    ensures out.Continue? || out.Exit? ==> Valid(out.registry)
    ensures out.Continue? ==> reg.count <= out.registry.count <= reg.count + 1
  {
    match cmd.choice
    case '1' =>
      (match InitSensor(reg, Capacity, cmd.form)
       case RegistryFull => Continue(reg)
       case Added(r) => Continue(r)
       case Reprompting => Stuck)
    case '2' => Continue(ReadAll(reg))
    case '3' => Continue(DisplaySensors(reg))
    case '4' => Exit(reg)
    case _ => Continue(reg)
  }

  /** How a session ends: by choice 4, stuck at the type prompt, or with no commands left. */
  datatype RunOutcome = Exited(registry: Registry) | Hung | InputEnded(registry: Registry)

  /**
   * The menu loop over a sequence of commands. Whatever the commands, every
   * registry it ends with still satisfies the capacity invariant, and
   * `count` never goes down.
   */
  function Run(reg: Registry, cmds: seq<Command>): (out: RunOutcome)
    requires Valid(reg)
    ensures !out.Hung? ==> Valid(out.registry) && reg.count <= out.registry.count
    ensures out.Exited? ==> exists k :: 0 <= k < |cmds| && cmds[k].choice == '4'
    ensures out.InputEnded? ==> forall k :: 0 <= k < |cmds| ==> cmds[k].choice != '4'
    decreases |cmds|
  {
    if |cmds| == 0 then InputEnded(reg)
    else match MenuStep(reg, cmds[0])
      case Exit(r) => Exited(r)
      case Stuck => Hung
      case Continue(r) =>
        var rest := Run(r, cmds[1..]);
        assert forall k :: 1 <= k < |cmds| ==> cmds[k] == cmds[1..][k - 1];
        rest
  }

  /**
   * The invariant of every state `main` reaches: capacity respected, every
   * slot of a known type and ACTIVE (blank slots read as TEMPERATURE and ACTIVE).
   */
  predicate Healthy(reg: Registry) {
    && Valid(reg)
    && forall k :: 0 <= k < |reg.slots| ==> !reg.slots[k].config.Unknown? && reg.slots[k].status == Active
  }

  lemma EmptyRegistryHealthy()
    ensures Healthy(EmptyRegistry)
  {
  }

  /** Every menu pass keeps the registry healthy. */
  lemma MenuStepKeepsHealthy(reg: Registry, cmd: Command)
    requires Healthy(reg)
    ensures MenuStep(reg, cmd).Continue? || MenuStep(reg, cmd).Exit? ==> Healthy(MenuStep(reg, cmd).registry)
  {
  }

  /**
   * From the initial state, whatever is typed, no sensor ever reaches the
   * ERROR status: `init_sensor` only ever stores a known type, so the ERROR
   * branch of `process_sensor_data` is unreachable from the menu.
   */
  lemma {:induction false} NoSensorEverFlagged(reg: Registry, cmds: seq<Command>)
    requires Healthy(reg)
    ensures !Run(reg, cmds).Hung? ==>
      forall k :: 0 <= k < |Run(reg, cmds).registry.slots| ==> Run(reg, cmds).registry.slots[k].status != Error
    decreases |cmds|
  {
    if |cmds| > 0 {
      MenuStepKeepsHealthy(reg, cmds[0]);
      if MenuStep(reg, cmds[0]).Continue? {
        NoSensorEverFlagged(MenuStep(reg, cmds[0]).registry, cmds[1..]);
      }
    }
  }

  /**
   * Ten successful initialisations fill the registry; an eleventh choice 1
   * is refused and leaves everything as it was.
   */
  lemma EleventhSensorRefused(reg: Registry, form: SensorForm)
    requires Valid(reg) && reg.count == Capacity
    ensures MenuStep(reg, Command('1', form)) == Continue(reg)
  {
  }
}
