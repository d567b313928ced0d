/** The ball's health and contact flags as values: damage and healing with their
    clamps, the contact handlers dispatched on the other object's tag, and the
    abstract effects (forces and the game-over signal) they give rise to. */
module BallSpec {
  import opened Int32

  /** The tag of the object the ball touches or overlaps. */
  datatype Tag = Ground | Obstacle | Spike | Heart | Water | Other

  /** What the ball asks of its collaborators, in place of physics and game-over calls. */
  datatype Effect = Bounce | Jump | Float | GameOverSignal

  datatype BallState = BallState(health: int, maxHealth: int, isGrounded: bool, inWater: bool)
  {
    /** Health lies between 0 and the maximum, and the maximum is a C# int. */
    predicate Valid() {
      0 <= health <= maxHealth <= MAX
    }
  }

  /** A ball state after an event, with the effects the event emitted. */
  datatype Reaction = Reaction(state: BallState, effects: seq<Effect>)

  /** The ground-like tags: touching one of them grounds the ball. */
  predicate Grounding(tag: Tag) {
    tag == Ground || tag == Obstacle
  }

  /** Subtract `damage`, clamp at 0 from below, and signal game over whenever health ends at 0. */
  function TakeDamage(b: BallState, damage: int): (r: Reaction)
    requires InRange(b.health) && InRange(damage)
    ensures 0 <= r.state.health && InRange(r.state.health)
    ensures InRange(b.health - damage) ==> r.state.health == Max(0, b.health - damage)
    ensures 0 <= damage && 0 <= b.health ==> r.state.health <= b.health
    ensures r.effects == if r.state.health == 0 then [GameOverSignal] else []
    ensures r.state == b.(health := r.state.health)
  {
    var health := Max(0, Wrap(b.health - damage));
    Reaction(b.(health := health), if health <= 0 then [GameOverSignal] else [])
  }

  /** Healing as the source writes it: the sum wraps around before the clamp at the maximum. */
  function HealAsWritten(b: BallState, amount: int): (r: BallState)
    requires InRange(b.health) && InRange(b.maxHealth) && InRange(amount)
    ensures r.health <= b.maxHealth && r == b.(health := r.health)
    ensures b.Valid() && InRange(b.health + amount) ==> r == Heal(b, amount)
  {
    b.(health := Min(b.maxHealth, Wrap(b.health + amount)))
  }

  /** A large heal at positive health wraps to a negative sum, which the clamp at the
      maximum lets through: the ball ends with health far below 0. */
  lemma HealOverflowLeavesRange()
    ensures var b := BallState(1, 3, false, false);
      b.Valid() && HealAsWritten(b, MAX).health == MIN && !HealAsWritten(b, MAX).Valid()
  {
  }

  /** The heart pickup heals by 1, so at full health with the largest maximum the
      as-written sum wraps too, and health drops from `int.MaxValue` to `int.MinValue`. */
  lemma HeartAtLargestMaximumWraps()
    ensures var b := BallState(MAX, MAX, false, false);
      b.Valid() && HealAsWritten(b, 1).health == MIN && OnTriggerEnter(b, Heart).health == MAX
  {
  }

  /** Healing as intended: add `amount`, clamp at the maximum from above. */
  function Heal(b: BallState, amount: int): (r: BallState)
    requires b.Valid() && InRange(amount)
    ensures InRange(r.health) && r.health <= b.maxHealth
    ensures r == b.(health := r.health)
    ensures 0 <= amount ==> r.Valid() && b.health <= r.health
    ensures r.health == b.maxHealth || r.health == b.health + amount
    ensures 0 <= amount && b.health == b.maxHealth ==> r == b
  {
    b.(health := Min(b.maxHealth, b.health + amount))
  }

  /** Collision start: ground-like tags ground the ball, a spike does one point of damage. */
  function OnCollisionEnter(b: BallState, tag: Tag): (r: Reaction)
    requires b.Valid()
    ensures r.state.isGrounded == (b.isGrounded || Grounding(tag))
    ensures r.state.inWater == b.inWater && r.state.maxHealth == b.maxHealth
    ensures tag == Spike ==> r.state.health == Max(0, b.health - 1) && r.effects == TakeDamage(b, 1).effects
    ensures tag != Spike ==> r.state.health == b.health && r.effects == []
  {
    if Grounding(tag) then Reaction(b.(isGrounded := true), [])
    else if tag == Spike then TakeDamage(b, 1)
    else Reaction(b, [])
  }

  /** Collision end: leaving a ground-like object ungrounds the ball. */
  function OnCollisionExit(b: BallState, tag: Tag): (r: BallState)
    ensures r.isGrounded == (b.isGrounded && !Grounding(tag))
    ensures r == b.(isGrounded := r.isGrounded)
  {
    if Grounding(tag) then b.(isGrounded := false) else b
  }

  /** Trigger entry: a heart heals one point, water sets the in-water flag. */
  function OnTriggerEnter(b: BallState, tag: Tag): (r: BallState)
    requires b.Valid()
    ensures r.isGrounded == b.isGrounded && r.maxHealth == b.maxHealth
    ensures r.inWater == (b.inWater || tag == Water)
    ensures r.health == if tag == Heart then Min(b.maxHealth, b.health + 1) else b.health
  {
    if tag == Heart then Heal(b, 1)
    else if tag == Water then b.(inWater := true)
    else b
  }

  /** Trigger exit: leaving water clears the in-water flag. */
  function OnTriggerExit(b: BallState, tag: Tag): (r: BallState)
    ensures r.inWater == (b.inWater && tag != Water)
    ensures r == b.(inWater := r.inWater)
  {
    if tag == Water then b.(inWater := false) else b
  }

  /** The events that change the ball: contact notifications and direct damage or healing calls. */
  datatype Event =
    | CollisionEnter(tag: Tag)
    | CollisionExit(tag: Tag)
    | TriggerEnter(tag: Tag)
    | TriggerExit(tag: Tag)
    | Damage(damage: int)
    | Restore(amount: int)
  {
    /** Damage and healing amounts are non-negative C# ints. */
    predicate Valid() {
      match this
      case Damage(d) => 0 <= d <= MAX
      case Restore(a) => 0 <= a <= MAX
      case _ => true
    }
  }

  function Apply(b: BallState, e: Event): (r: Reaction)
    requires b.Valid() && e.Valid()
  {
    match e
    case CollisionEnter(tag) => OnCollisionEnter(b, tag)
    case CollisionExit(tag) => Reaction(OnCollisionExit(b, tag), [])
    case TriggerEnter(tag) => Reaction(OnTriggerEnter(b, tag), [])
    case TriggerExit(tag) => Reaction(OnTriggerExit(b, tag), [])
    case Damage(d) => TakeDamage(b, d)
    case Restore(a) => Reaction(Heal(b, a), [])
  }

  /** The state after a sequence of events and every effect emitted on the way: with
      non-negative amounts, health stays between 0 and the unchanged maximum. */
  function Run(b: BallState, es: seq<Event>): (r: Reaction)
    requires b.Valid() && forall i :: 0 <= i < |es| ==> es[i].Valid()
    ensures r.state.Valid()
    ensures r.state.maxHealth == b.maxHealth
    decreases |es|
  {
    if es == [] then
      Reaction(b, [])
    else
      var first := Apply(b, es[0]);
      var rest := Run(first.state, es[1..]);
      Reaction(rest.state, first.effects + rest.effects)
  }

  /** Contact with anything but a spike never signals game over: in any sequence of
      events, a game-over signal goes back to a damage call or a spike collision. */
  lemma {:induction false} GameOverOnlyFromDamage(b: BallState, es: seq<Event>)
    requires b.Valid() && forall i :: 0 <= i < |es| ==> es[i].Valid()
    ensures GameOverSignal in Run(b, es).effects ==> exists i :: 0 <= i < |es| && (es[i].Damage? || (es[i].CollisionEnter? && es[i].tag == Spike))
    decreases |es|
  {
    if es != [] {
      var first := Apply(b, es[0]);
      GameOverOnlyFromDamage(first.state, es[1..]);
      var rest := Run(first.state, es[1..]);
      if GameOverSignal in Run(b, es).effects {
        if GameOverSignal in first.effects {
          assert es[0].Damage? || (es[0].CollisionEnter? && es[0].tag == Spike);
        } else {
          assert GameOverSignal in rest.effects;
          var i :| 0 <= i < |es[1..]| && (es[1..][i].Damage? || (es[1..][i].CollisionEnter? && es[1..][i].tag == Spike));
          assert es[i + 1] == es[1..][i];
        }
      }
    }
  }

  /** The number of game-over signals a sequence of damage calls emits. */
  function Signals(b: BallState, damages: seq<int>): (n: nat)
    requires InRange(b.health) && forall i :: 0 <= i < |damages| ==> 0 <= damages[i] <= MAX
    ensures n <= |damages|
    decreases |damages|
  {
    if damages == [] then 0
    else
      var first := TakeDamage(b, damages[0]);
      |first.effects| + Signals(first.state, damages[1..])
  }

  /** At 0 health every further hit signals game over again: the signal is not a one-shot. */
  lemma {:induction false} EveryHitAtZeroSignals(b: BallState, damages: seq<int>)
    requires b.health == 0 && forall i :: 0 <= i < |damages| ==> 0 <= damages[i] <= MAX
    ensures Signals(b, damages) == |damages|
    decreases |damages|
  {
    if damages != [] {
      var first := TakeDamage(b, damages[0]);
      assert first.state.health == 0;
      EveryHitAtZeroSignals(first.state, damages[1..]);
    }
  }

  /** A three-point ball hit for 1 and then for 5: health 2 without a signal, then 0 with one. */
  lemma DamageScenario()
    ensures var b := BallState(3, 3, false, false);
      var hit1 := TakeDamage(b, 1);
      var hit2 := TakeDamage(hit1.state, 5);
      hit1.state.health == 2 && hit1.effects == [] &&
      hit2.state.health == 0 && hit2.effects == [GameOverSignal] &&
      Signals(b, [1, 5]) == 1
  {
  }
}
