/**
 Routing experiments: by switchback windows on a clock with guarded edges, or by
 request over two isolated backend pools. Times are in nanoseconds.
 */
module Experiment {
  import opened Common
  import opened EventIds

  datatype Arm = Arm(policy: string, pool: seq<string>)

  datatype DesignType = Switchback | IsolatedPool | Unknown

  /** A duration as configured. */
  datatype Duration = Absent | Unreadable | Given(length: int)

  datatype Config = Config(
    id: string, control: Arm, treatment: Arm, design: DesignType, window: Duration, warmup: Duration, cooldown: Duration,
    seed: string, probability: real, startAt: Option<int>, maxDuration: Duration)

  datatype Fault =
    | MissingField | BadPolicy | BadProbability | BadWindow | BadWarmup | BadCooldown | BadDesign | MissingPool
    | BadPoolId | OverlappingPools | MissingStart | BadMaxDuration

  datatype Controller = Controller(config: Config, window: int, warmup: int, cooldown: int, maxDuration: int)

  const POLICIES := {"static", "load-aware", "kv-v1", "kv-v2"}

  /** An omitted length is zero. */
  function Optional(d: Duration): Option<int> {
    match d
    case Absent => Some(0)
    case Unreadable => None
    case Given(length) => Some(length)
  }

  /** Unicode's white space. */
  predicate Space(ch: char) {
    var code := ch as int;
    9 <= code <= 13 || 0x2000 <= code <= 0x200A || code in {0x20, 0x85, 0xA0, 0x1680, 0x2028, 0x2029, 0x202F, 0x205F, 0x3000}
  }

  predicate Blank(id: string) {
    forall ch :: ch in id ==> Space(ch)
  }

  ghost predicate AllNamed(pool: seq<string>) {
    forall id :: id in pool ==> !Blank(id)
  }

  ghost predicate PoolOk(pool: seq<string>) {
    pool != [] && AllNamed(pool) && forall i, j :: 0 <= i < j < |pool| ==> pool[i] != pool[j]
  }

  ghost predicate Apart(a: seq<string>, b: seq<string>) {
    forall x :: x in a ==> x !in b
  }

  /** Edges leave room in every window, and pools share no backend. */
  ghost predicate Sound(c: Controller) {
    && 0.0 < c.config.probability < 1.0 && !c.config.design.Unknown?
    && c.config.control.policy in POLICIES && c.config.treatment.policy in POLICIES
    && (c.config.design.Switchback? ==>
          0 <= c.warmup && 0 <= c.cooldown && c.warmup + c.cooldown < c.window)
    && (c.config.design.IsolatedPool? ==>
          PoolOk(c.config.control.pool) && PoolOk(c.config.treatment.pool) &&
          Apart(c.config.control.pool, c.config.treatment.pool))
    && c.maxDuration >= 0 && (c.maxDuration > 0 ==> c.config.startAt.Some?)
  }

  /** What the configuration has to say for itself. */
  ghost predicate Acceptable(config: Config) {
    && config.id != "" && config.control.policy in POLICIES && config.treatment.policy in POLICIES && config.seed != ""
    && 0.0 <= config.probability < 1.0
    && (match config.design
        case Switchback =>
          config.window.Given? && config.window.length > 0 && Optional(config.warmup).Some? && Optional(config.cooldown).Some? &&
          Optional(config.warmup).value >= 0 && Optional(config.cooldown).value >= 0 &&
          Optional(config.warmup).value + Optional(config.cooldown).value < config.window.length
        case IsolatedPool =>
          PoolOk(config.control.pool) && PoolOk(config.treatment.pool) && Apart(config.control.pool, config.treatment.pool)
        case Unknown => false)
    && (config.maxDuration.Absent? ||
        (config.startAt.Some? && config.maxDuration.Given? && config.maxDuration.length > 0))
  }

  method CheckPool(pool: seq<string>, other: set<string>) returns (fault: Option<Fault>, seen: set<string>)
    ensures fault.None? ==> seen == set x | x in pool
    ensures fault.None? <==> AllNamed(pool) && (forall i, j :: 0 <= i < j < |pool| ==> pool[i] != pool[j]) &&
                             (forall x :: x in pool ==> x !in other)
  {
    hide Blank;
    seen := {};
    for k := 0 to |pool|
      invariant seen == set x | x in pool[..k]
      invariant AllNamed(pool[..k]) && (forall i, j :: 0 <= i < j < k ==> pool[i] != pool[j])
      invariant forall x :: x in pool[..k] ==> x !in other
    {
      assert pool[k] in pool && pool[..k + 1] == pool[..k] + [pool[k]];
      if Blank(pool[k]) || pool[k] in seen {
        return Some(BadPoolId), seen;
      }
      if pool[k] in other {
        return Some(OverlappingPools), seen;
      }
      assert forall i :: 0 <= i < k ==> pool[i] in pool[..k];
      seen := seen + {pool[k]};
    }
    assert pool[..|pool|] == pool;
    fault := None;
  }

  method New(config: Config) returns (r: Result<Controller, Fault>)
    ensures r.Ok? <==> Acceptable(config)
    ensures r.Ok? ==> Sound(r.value)
    ensures r.Ok? ==>
              && r.value.config == config.(probability := if config.probability == 0.0 then 0.5 else config.probability)
              && Some(r.value.maxDuration) == Optional(config.maxDuration)
              && (config.design.Switchback? ==>
                    && config.window == Given(r.value.window)
                    && Some(r.value.warmup) == Optional(config.warmup) && Some(r.value.cooldown) == Optional(config.cooldown))
              && (config.design.IsolatedPool? ==> r.value.window == r.value.warmup == r.value.cooldown == 0)
  {
    if config.id == "" || config.control.policy == "" || config.treatment.policy == "" || config.seed == "" {
      return Err(MissingField);
    }
    if config.control.policy !in POLICIES || config.treatment.policy !in POLICIES {
      return Err(BadPolicy);
    }
    var filled := config.(probability := if config.probability == 0.0 then 0.5 else config.probability);
    if filled.probability <= 0.0 || filled.probability >= 1.0 {
      return Err(BadProbability);
    }
    var window, warmup, cooldown := 0, 0, 0;
    match config.design {
      case Switchback =>
        if !config.window.Given? || config.window.length <= 0 {
          return Err(BadWindow);
        }
        window := config.window.length;
        if Optional(config.warmup).None? || Optional(config.warmup).value < 0 {
          return Err(BadWarmup);
        }
        warmup := Optional(config.warmup).value;
        if Optional(config.cooldown).None? || Optional(config.cooldown).value < 0 ||
           warmup + Optional(config.cooldown).value >= window {
          return Err(BadCooldown);
        }
        cooldown := Optional(config.cooldown).value;
      case Unknown =>
        return Err(BadDesign);
      case IsolatedPool =>
        if config.control.pool == [] || config.treatment.pool == [] {
          return Err(MissingPool);
        }
        var fault, seen := CheckPool(config.control.pool, {});
        if fault.Some? {
          return Err(fault.value);
        }
        var treatmentFault, _ := CheckPool(config.treatment.pool, seen);
        if treatmentFault.Some? {
          return Err(treatmentFault.value);
        }
    }
    var maxDuration := 0;
    if !config.maxDuration.Absent? {
      if config.startAt.None? {
        return Err(MissingStart);
      }
      if config.maxDuration.Unreadable? || config.maxDuration.length <= 0 {
        return Err(BadMaxDuration);
      }
      maxDuration := config.maxDuration.length;
    }
    r := Ok(Controller(filled, window, warmup, cooldown, maxDuration));
  }

  // ---- assignment ----

  datatype Assignment = Assignment(
    policy: string, pool: seq<string>, probability: real, window: string, warmup: bool, guarded: bool, active: bool)

  predicate NotStarted(c: Controller, now: int) {
    c.config.startAt.Some? && now < c.config.startAt.value
  }

  predicate Over(c: Controller, now: int) {
    c.maxDuration > 0 && c.config.startAt.Some? && now - c.config.startAt.value >= c.maxDuration
  }

  function Inactive(c: Controller): Assignment {
    Assignment(c.config.control.policy, c.config.control.pool, 1.0, "inactive", false, true, false)
  }

  /** Without a start the windows are counted from the epoch. */
  function Elapsed(c: Controller, now: int): nat {
    var since := now - if c.config.startAt.Some? then c.config.startAt.value else 0;
    if since < 0 then 0 else since
  }

  function WindowIndex(c: Controller, now: int): nat
    requires c.window > 0
  {
    Elapsed(c, now) / c.window
  }

  function Offset(c: Controller, now: int): nat
    requires c.window > 0
  {
    Elapsed(c, now) % c.window
  }

  /** At least six digits. */
  function WindowLabel(index: nat): string {
    "window-" + PadLeft(Decimal(index))
  }

  function PadLeft(digits: string): string
    decreases 6 - |digits|
  {
    if |digits| < 6 then PadLeft("0" + digits) else digits
  }

  /** `sample` is the hash of seed and unit, spread over [0, 1]. */
  function Assign(c: Controller, sample: (string, string) -> real, requestId: string, now: int): (r: Assignment)
    requires Sound(c)
  {
    if NotStarted(c, now) || Over(c, now) then Inactive(c)
    else
      var switchback := c.config.design.Switchback?;
      var unit := if switchback then WindowLabel(WindowIndex(c, now)) else requestId;
      var treated := sample(c.config.seed, unit) < c.config.probability;
      var arm := if treated then c.config.treatment else c.config.control;
      var warm := switchback && Offset(c, now) < c.warmup;
      Assignment(arm.policy, arm.pool, if treated then c.config.probability else 1.0 - c.config.probability,
                 if switchback then unit else "isolated-pool", warm,
                 warm || (switchback && c.window - Offset(c, now) <= c.cooldown), true)
  }

  // ---- who gets which arm ----

  /** Between its start and its end, if it has any. */
  ghost predicate Running(c: Controller, now: int) {
    match c.config.startAt
    case None => true
    case Some(start) => start <= now && (c.maxDuration == 0 || now < start + c.maxDuration)
  }

  ghost predicate InArm(a: Assignment, arm: Arm, probability: real) {
    a.policy == arm.policy && a.pool == arm.pool && a.probability == probability
  }

  /** Outside its running time an experiment gives everyone the control arm, for certain and marked as guarded. */
  lemma ActiveIff(c: Controller, sample: (string, string) -> real, x: string, now: int)
    requires Sound(c)
    ensures var a := Assign(c, sample, x, now);
            && (a.active <==> Running(c, now))
            && (!a.active ==> InArm(a, c.config.control, 1.0) && a.guarded && !a.warmup && a.window == "inactive")
  {
  }

  /** The instants of window `index`, counted from the start or, without one, from the epoch. */
  ghost predicate DuringWindow(c: Controller, index: nat, now: int) {
    var origin := if c.config.startAt.Some? then c.config.startAt.value else 0;
    var since := if now < origin then 0 else now - origin;
    index * c.window <= since < (index + 1) * c.window
  }

  lemma DuringIndex(c: Controller, index: nat, now: int)
    requires c.window > 0
    ensures DuringWindow(c, index, now) <==> WindowIndex(c, now) == index
  {
    var since := Elapsed(c, now);
    if DuringWindow(c, index, now) {
      DivModUnique(since, index, since - index * c.window, c.window);
    }
  }

  /** The arm is the treatment exactly if the sample of its unit is below the probability. */
  ghost predicate Drawn(c: Controller, sample: (string, string) -> real, unit: string, a: Assignment) {
    if sample(c.config.seed, unit) < c.config.probability
    then InArm(a, c.config.treatment, c.config.probability)
    else InArm(a, c.config.control, 1.0 - c.config.probability)
  }

  /** All requests of one window get the same policy, pool and label, drawn once for the window. */
  lemma WindowSharesArm(c: Controller, sample: (string, string) -> real, x: string, s: int, y: string, t: int, index: nat)
    requires Sound(c) && c.config.design.Switchback? && Running(c, s) && Running(c, t)
    requires DuringWindow(c, index, s) && DuringWindow(c, index, t)
    ensures var a, b := Assign(c, sample, x, s), Assign(c, sample, y, t);
            && a.window == b.window == WindowLabel(index) && Drawn(c, sample, WindowLabel(index), a)
            && a.policy == b.policy && a.pool == b.pool && a.probability == b.probability
            && (s == t ==> a == b)
  {
    hide WindowLabel;
    DuringIndex(c, index, s);
    DuringIndex(c, index, t);
    ActiveIff(c, sample, x, s);
    ActiveIff(c, sample, y, t);
  }

  /** With isolated pools the request alone decides, whenever it comes, and nothing is guarded. */
  lemma RequestKeepsArm(c: Controller, sample: (string, string) -> real, x: string, s: int, t: int)
    requires Sound(c) && c.config.design.IsolatedPool? && Running(c, s) && Running(c, t)
    ensures var a := Assign(c, sample, x, s);
            a == Assign(c, sample, x, t) && Drawn(c, sample, x, a) && !a.guarded && !a.warmup && a.window == "isolated-pool"
  {
    ActiveIff(c, sample, x, s);
    ActiveIff(c, sample, x, t);
  }

  /** Two requests of isolated pools have the same backends to go to, or none in common. */
  lemma PoolsSameOrApart(c: Controller, sample: (string, string) -> real, x: string, s: int, y: string, t: int)
    requires Sound(c) && c.config.design.IsolatedPool?
    ensures var a, b := Assign(c, sample, x, s), Assign(c, sample, y, t);
            a.pool == b.pool || (Apart(a.pool, b.pool) && Apart(b.pool, a.pool))
  {
  }

  /** The number that a string of digits stands for. */
  ghost function Number(digits: string): int {
    if digits == "" then 0
    else Number(digits[..|digits| - 1]) * 10 + (digits[|digits| - 1] as int - '0' as int)
  }

  lemma {:induction false} DecimalNumber(n: nat)
    ensures Number(Decimal(n)) == n
  {
    if n >= 10 {
      DecimalNumber(n / 10);
    }
  }

  lemma {:induction false} LeadingZero(digits: string)
    ensures Number("0" + digits) == Number(digits)
  {
    if digits != "" {
      var n := |digits| - 1;
      assert ("0" + digits)[..n + 1] == "0" + digits[..n];
      LeadingZero(digits[..n]);
    }
  }

  lemma {:induction false} PadLeftNumber(digits: string)
    ensures Number(PadLeft(digits)) == Number(digits) && |PadLeft(digits)| >= 6
    decreases 6 - |digits|
  {
    if |digits| < 6 {
      LeadingZero(digits);
      PadLeftNumber("0" + digits);
    }
  }

  /** Different windows have different labels, each with the window's number in at least six digits. */
  lemma WindowLabelIs(index: nat, other: nat)
    ensures |WindowLabel(index)| >= 13 && WindowLabel(index)[..7] == "window-"
    ensures Number(WindowLabel(index)[7..]) == index
    ensures WindowLabel(index) == WindowLabel(other) ==> index == other
  {
    hide PadLeft;
    hide Decimal;
    DecimalNumber(index);
    DecimalNumber(other);
    PadLeftNumber(Decimal(index));
    PadLeftNumber(Decimal(other));
    assert WindowLabel(index)[7..] == PadLeft(Decimal(index)) && WindowLabel(index)[..7] == "window-";
    assert WindowLabel(other)[7..] == PadLeft(Decimal(other));
  }

  // ---- what the clock guarantees ----

  lemma InWindow(c: Controller, now: int)
    requires c.window > 0
    ensures Elapsed(c, now) == WindowIndex(c, now) * c.window + Offset(c, now) && Offset(c, now) < c.window
  {
  }

  /** Guarded are exactly the first `warmup` and the last `cooldown` of a window. */
  lemma UnguardedIff(c: Controller, sample: (string, string) -> real, requestId: string, now: int)
    requires Sound(c) && c.config.design.Switchback? && !NotStarted(c, now) && !Over(c, now)
    ensures !Assign(c, sample, requestId, now).guarded <==> c.warmup <= Offset(c, now) < c.window - c.cooldown
  {
  }

  /** Unguarded requests of different windows are more than warm-up and cool-down apart. */
  lemma CarryOverSeparation(c: Controller, sample: (string, string) -> real, x: string, s: int, y: string, t: int)
    requires Sound(c) && c.config.design.Switchback?
    requires Assign(c, sample, x, s).active && !Assign(c, sample, x, s).guarded
    requires Assign(c, sample, y, t).active && !Assign(c, sample, y, t).guarded
    requires WindowIndex(c, s) < WindowIndex(c, t)
    ensures t - s > c.warmup + c.cooldown
  {
    UnguardedIff(c, sample, x, s);
    UnguardedIff(c, sample, y, t);
    InWindow(c, s);
    InWindow(c, t);
    WholeWindow(WindowIndex(c, s), WindowIndex(c, t), c.window);
  }

  lemma WholeWindow(i: nat, j: nat, window: int)
    requires i < j && window > 0
    ensures j * window >= i * window + window
  {
    assert (i + 1) * window <= j * window;
  }

  predicate Unguarded(c: Controller, offset: int) {
    !(offset < c.warmup || c.window - offset <= c.cooldown)
  }

  function UnguardedBelow(c: Controller, n: nat): nat {
    if n == 0 then 0 else UnguardedBelow(c, n - 1) + if Unguarded(c, n - 1) then 1 else 0
  }

  lemma {:induction false} UnguardedBelowIs(c: Controller, n: nat)
    requires Sound(c) && c.config.design.Switchback? && n <= c.window
    ensures UnguardedBelow(c, n) ==
            if n <= c.warmup then 0 else if n <= c.window - c.cooldown then n - c.warmup else c.window - c.cooldown - c.warmup
  {
    if n > 0 {
      UnguardedBelowIs(c, n - 1);
    }
  }

  /** Every full window has the same, positive number of unguarded offsets. */
  lemma UnguardedOffsets(c: Controller)
    requires Sound(c) && c.config.design.Switchback?
    ensures UnguardedBelow(c, c.window) == c.window - c.warmup - c.cooldown > 0
  {
    UnguardedBelowIs(c, c.window);
  }

  /** In each window there is a moment of every unguarded offset, and it is not guarded. */
  lemma UnguardedMoment(c: Controller, sample: (string, string) -> real, x: string, index: nat, offset: nat)
    requires Sound(c) && c.config.design.Switchback? && c.warmup <= offset < c.window - c.cooldown
    ensures var start := if c.config.startAt.Some? then c.config.startAt.value else 0;
            var now := start + index * c.window + offset;
            && WindowIndex(c, now) == index && Offset(c, now) == offset
            && (!Over(c, now) ==> Assign(c, sample, x, now).active && !Assign(c, sample, x, now).guarded)
  {
    var start := if c.config.startAt.Some? then c.config.startAt.value else 0;
    var now := start + index * c.window + offset;
    DivModUnique(index * c.window + offset, index, offset, c.window);
    assert index * c.window >= 0;
    if !Over(c, now) {
      UnguardedIff(c, sample, x, now);
    }
  }
}
