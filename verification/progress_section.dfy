/** The demo's progress values: an animated counter and a value stepped by ±10. */
module ProgressDemo {

  /** The interval's update: back to 0 at or past 100, otherwise up by 5. */
  function AnimatedStep(prev: int): (r: int)
    ensures prev >= 100 ==> r == 0
    ensures prev < 100 ==> r == prev + 5
  {
    if prev >= 100 then 0 else prev + 5
  }

  /** The animated value after `n` ticks, starting from 0. */
  function Animated(n: nat): int {
    if n == 0 then 0 else AnimatedStep(Animated(n - 1))
  }

  /** The animated value runs 0, 5, ..., 100 and starts over: after `n` ticks it
      is `5 * (n % 21)`, so it stays within 0..100 and is a multiple of 5. */
  lemma {:induction false} AnimatedCycle(n: nat)
    ensures Animated(n) == 5 * (n % 21)
    ensures 0 <= Animated(n) <= 100 && Animated(n) % 5 == 0
  {
    if n > 0 {
      AnimatedCycle(n - 1);
      if (n - 1) % 21 == 20 {
        assert n % 21 == 0;
      } else {
        assert n % 21 == (n - 1) % 21 + 1;
      }
    }
  }

  datatype Button = Minus | Plus

  /** `-10`: `Math.max(0, value - 10)`; `+10`: `Math.min(100, value + 10)`. */
  function Press(value: int, b: Button): (r: int)
    ensures b == Minus ==> r >= 0 && (value - 10 >= 0 ==> r == value - 10) && (value - 10 < 0 ==> r == 0)
    ensures b == Plus ==> r <= 100 && (value + 10 <= 100 ==> r == value + 10) && (value + 10 > 100 ==> r == 100)
  {
    match b
    case Minus => if value - 10 >= 0 then value - 10 else 0
    case Plus => if value + 10 <= 100 then value + 10 else 100
  }

  const InitialValue := 45

  /** The value after a run of button presses. */
  function Run(value: int, presses: seq<Button>): int
    decreases |presses|
  {
    if presses == [] then value else Run(Press(value, presses[0]), presses[1..])
  }

  /** From the initial 45 the value never leaves 0..100 and stays a multiple of 5. */
  lemma {:induction false} RunStaysInRange(value: int, presses: seq<Button>)
    requires 0 <= value <= 100 && value % 5 == 0
    ensures 0 <= Run(value, presses) <= 100 && Run(value, presses) % 5 == 0
    decreases |presses|
  {
    if presses != [] {
      RunStaysInRange(Press(value, presses[0]), presses[1..]);
    }
  }

  lemma FromInitialValue(presses: seq<Button>)
    ensures 0 <= Run(InitialValue, presses) <= 100
  {
    RunStaysInRange(InitialValue, presses);
  }
}
