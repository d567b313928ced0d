/** The player ball object: health and contact flags updated in place by its
    event handlers, and a per-frame update that only decides which forces to apply. */
module BallController {
  import opened Int32
  import opened BallSpec

  class Ball {
    var health: int  // the current health
    var maxHealth: int
    var isGrounded: bool
    var inWater: bool

    function State(): BallState
      reads this
    {
      BallState(health, maxHealth, isGrounded, inWater)
    }

    ghost predicate Valid()
      reads this
    {
      State().Valid()
    }

    /** A new ball starts at full health, neither grounded nor in water. */
    constructor (maxHealth: int)
      requires 0 <= maxHealth <= MAX
      ensures Valid()
      ensures State() == BallState(maxHealth, maxHealth, false, false)
    {
      this.maxHealth := maxHealth;
      health := maxHealth;
      isGrounded, inWater := false, false;
    }

    method TakeDamage(damage: int) returns (effects: seq<Effect>)
      requires Valid() && 0 <= damage <= MAX
      modifies this
      ensures Valid()
      ensures State() == BallSpec.TakeDamage(old(State()), damage).state
      ensures effects == BallSpec.TakeDamage(old(State()), damage).effects
      ensures (GameOverSignal in effects) <==> health == 0
    {
      health := Wrap(health - damage);
      health := Max(0, health);
      effects := [];
      if health <= 0 {
        effects := [GameOverSignal];
      }
    }

    method Heal(amount: int)
      requires Valid() && 0 <= amount <= MAX
      modifies this
      ensures Valid()
      ensures State() == BallSpec.Heal(old(State()), amount)
    {
      health := Min(maxHealth, health + amount);
    }

    method OnCollisionEnter(tag: Tag) returns (effects: seq<Effect>)
      requires Valid()
      modifies this
      ensures Valid()
      ensures State() == BallSpec.OnCollisionEnter(old(State()), tag).state
      ensures effects == BallSpec.OnCollisionEnter(old(State()), tag).effects
    {
      effects := [];
      if tag == Ground || tag == Obstacle {
        isGrounded := true;
      }
      if tag == Spike {
        effects := TakeDamage(1);
      }
    }

    method OnCollisionExit(tag: Tag)
      requires Valid()
      modifies this
      ensures Valid()
      ensures State() == BallSpec.OnCollisionExit(old(State()), tag)
    {
      if tag == Ground || tag == Obstacle {
        isGrounded := false;
      }
    }

    method OnTriggerEnter(tag: Tag)
      requires Valid()
      modifies this
      ensures Valid()
      ensures State() == BallSpec.OnTriggerEnter(old(State()), tag)
    {
      if tag == Heart {
        Heal(1);
      }
      if tag == Water {
        inWater := true;
      }
    }

    method OnTriggerExit(tag: Tag)
      requires Valid()
      modifies this
      ensures Valid()
      ensures State() == BallSpec.OnTriggerExit(old(State()), tag)
    {
      if tag == Water {
        inWater := false;
      }
    }

    /** One frame: a bounce on every frame spent grounded, a jump when the jump key
        goes down while grounded (after the bounce), and a float force while in water,
        each at most once.
        The ball itself does not change. */
    method Update(jumpPressed: bool) returns (effects: seq<Effect>)
      ensures (Bounce in effects) <==> isGrounded
      ensures (Jump in effects) <==> jumpPressed && isGrounded
      ensures (Float in effects) <==> inWater
      ensures GameOverSignal !in effects
      ensures forall i, j :: 0 <= i < j < |effects| ==> effects[i] != effects[j]
      ensures Jump in effects ==> effects[0] == Bounce
    {
      effects := [];
      if isGrounded {
        effects := effects + [Bounce];
      }
      if jumpPressed && isGrounded {
        effects := effects + [Jump];
      }
      if inWater {
        effects := effects + [Float];
      }
    }
  }
}
