/**
 * The entities of the princess-saving adventure and the result type its
 * steps return.
 */
module Adventure {
  import opened Wrappers

  /** A value or an error message. */
  datatype Result<+T> = Ok(value: T) | Error(message: string)
  {
    /** Applies `f` to a value; an error passes through. */
    function Map<U>(f: T -> U): Result<U>
    {
      match this
      case Ok(v) => Ok(f(v))
      case Error(m) => Error(m)
    }
  }

  datatype Hero = Hero(name: string, skill: string)

  datatype Enemy = Enemy(kind: string)

  datatype Loot = Loot(value: int)

  datatype Princess = Princess(name: string)

  datatype Castle = Castle(enemies: seq<Enemy>, hasEnemies: bool, princess: Option<Princess>)

  /** The hero's sword fight against one enemy, decided elsewhere. */
  type KillWithSword = (Hero, Enemy) -> Result<Loot>

  /**
   * The result of a battle together with the enemies the hero actually
   * fought (the ones KillWithSword was called on), in order.
   */
  datatype Battle<+T> = Battle(result: Result<T>, fought: seq<Enemy>)

  /** The index of the first enemy the hero loses against, if any. */
  function FirstDefeat(hero: Hero, enemies: seq<Enemy>, kill: KillWithSword): (k: Option<nat>)
    ensures k.None? <==> forall i :: 0 <= i < |enemies| ==> kill(hero, enemies[i]).Ok?
    ensures k.Some? ==>
      && k.value < |enemies|
      && kill(hero, enemies[k.value]).Error?
      && forall i :: 0 <= i < k.value ==> kill(hero, enemies[i]).Ok?
  {
    if |enemies| == 0 then None
    else if kill(hero, enemies[0]).Error? then Some(0)
    else
      match FirstDefeat(hero, enemies[1..], kill)
      case None => None
      case Some(j) => Some(j + 1)
  }

  /**
   * Adding an enemy at the end: an earlier defeat stays the first one;
   * otherwise the new enemy is the first defeat exactly when it wins.
   */
  lemma {:induction false} FirstDefeatSnoc(hero: Hero, enemies: seq<Enemy>, kill: KillWithSword)
    requires |enemies| > 0
    ensures var n := |enemies| - 1;
      && (FirstDefeat(hero, enemies[..n], kill).Some? ==>
            FirstDefeat(hero, enemies, kill) == FirstDefeat(hero, enemies[..n], kill))
      && (FirstDefeat(hero, enemies[..n], kill).None? ==>
            FirstDefeat(hero, enemies, kill) == (if kill(hero, enemies[n]).Error? then Some(n) else None))
  {
    var n := |enemies| - 1;
    if n > 0 && kill(hero, enemies[0]).Ok? {
      assert enemies[..n][1..] == enemies[1..][..n - 1];
      FirstDefeatSnoc(hero, enemies[1..], kill);
    } else if n > 0 {
      assert enemies[..n][0] == enemies[0];
    }
  }
}
