/**
 * The nightmare telling of the adventure: the hero fights every enemy, and
 * the fights' results are combined from the left into one loot total.
 */
module NightmareFairyTale {
  import opened Wrappers
  import opened Adventure
  import LullabyFairyTale

  datatype FairyTaleResult = FairyTaleResult(hero: Hero, princess: Option<Princess>, loot: Loot)

  /** One fight: the sword fight's result, passed on unchanged (the console line aside). */
  function DefeatEnemy(hero: Hero, enemy: Enemy, kill: KillWithSword): (r: Result<Loot>)
    ensures r == kill(hero, enemy)
  {
    kill(hero, enemy).Map(l => l)
  }

  /**
   * Combines two fight results: Ok of the summed loot when both are Ok,
   * otherwise the left error if there is one, else the right error.
   */
  function GatheringLoot(a: Result<Loot>, b: Result<Loot>): (r: Result<Loot>)
    ensures r.Ok? <==> a.Ok? && b.Ok?
    ensures r.Ok? ==> r.value.value == a.value.value + b.value.value
    ensures a.Error? ==> r == a
    ensures a.Ok? && b.Error? ==> r == b
  {
    match a
    case Error(m) => Error(m)
    case Ok(lootA) =>
      match b
      case Error(m) => Error(m)
      case Ok(lootB) => Ok(Loot(lootA.value + lootB.value))
  }

  /** The total value of the Ok results, summed from the front. */
  function LootSum(rs: seq<Result<Loot>>): int
  {
    if |rs| == 0 then 0
    else (if rs[0].Ok? then rs[0].value.value else 0) + LootSum(rs[1..])
  }

  /** Summing one more result at the back. */
  lemma {:induction false} LootSumSnoc(rs: seq<Result<Loot>>, x: Result<Loot>)
    ensures LootSum(rs + [x]) == LootSum(rs) + (if x.Ok? then x.value.value else 0)
  {
    if |rs| > 0 {
      assert (rs + [x])[1..] == rs[1..] + [x];
      LootSumSnoc(rs[1..], x);
    } else {
      assert rs + [x] == [x];
      assert [x][1..] == [];
    }
  }

  /**
   * Aggregate without a seed: the first result combined from the left with
   * each following one by GatheringLoot. It is Ok exactly when every result
   * is Ok, its loot is then the sum of all loot, and otherwise it is the
   * first error in list order.
   */
  function Aggregate(rs: seq<Result<Loot>>): (r: Result<Loot>)
    requires |rs| > 0
    ensures r.Ok? <==> forall i :: 0 <= i < |rs| ==> rs[i].Ok?
    ensures r.Ok? ==> r.value.value == LootSum(rs)
    ensures forall k :: 0 <= k < |rs| && rs[k].Error? && (forall i :: 0 <= i < k ==> rs[i].Ok?) ==> r == rs[k]
  {
    var n := |rs| - 1;
    if n == 0 then
      assert rs == [] + [rs[0]];
      LootSumSnoc([], rs[0]);
      rs[0]
    else
      var before := Aggregate(rs[..n]);
      AggregateStep(rs, rs[..n], before);
      GatheringLoot(before, rs[n])
  }

  /** Combining the fold of all but the last result with the last result. */
  lemma AggregateStep(rs: seq<Result<Loot>>, front: seq<Result<Loot>>, before: Result<Loot>)
    requires |rs| > 1 && front == rs[..|rs| - 1]
    requires before.Ok? <==> forall i :: 0 <= i < |front| ==> front[i].Ok?
    requires before.Ok? ==> before.value.value == LootSum(front)
    requires forall k :: 0 <= k < |front| && front[k].Error? && (forall i :: 0 <= i < k ==> front[i].Ok?) ==> before == front[k]
    ensures var r := GatheringLoot(before, rs[|rs| - 1]);
      && (r.Ok? <==> forall i :: 0 <= i < |rs| ==> rs[i].Ok?)
      && (r.Ok? ==> r.value.value == LootSum(rs))
      && (forall k :: 0 <= k < |rs| && rs[k].Error? && (forall i :: 0 <= i < k ==> rs[i].Ok?) ==> r == rs[k])
  {
    var n := |rs| - 1;
    assert forall i :: 0 <= i < n ==> front[i] == rs[i];
    assert rs == front + [rs[n]];
    LootSumSnoc(front, rs[n]);
    var r := GatheringLoot(before, rs[n]);
    forall k | 0 <= k < |rs| && rs[k].Error? && (forall i :: 0 <= i < k ==> rs[i].Ok?)
      ensures r == rs[k]
    {
      if k < n {
        assert before == front[k];
      }
    }
  }

  /** The Select: every enemy's fight, in enemy order. */
  function Fights(hero: Hero, enemies: seq<Enemy>, kill: KillWithSword): (rs: seq<Result<Loot>>)
    ensures |rs| == |enemies|
    ensures forall i :: 0 <= i < |enemies| ==> rs[i] == kill(hero, enemies[i])
  {
    seq(|enemies|, i requires 0 <= i < |enemies| => DefeatEnemy(hero, enemies[i], kill))
  }

  /**
   * Every enemy is fought, even after a lost fight. With no enemies the
   * loot is Loot(0); with no lost fight it is the sum of all loot; otherwise
   * the result is the error of the first lost fight in enemy order.
   */
  function DefeatEnemies(hero: Hero, enemies: seq<Enemy>, kill: KillWithSword): (b: Battle<Loot>)
    ensures b.fought == enemies
    ensures |enemies| == 0 ==> b.result == Ok(Loot(0))
    ensures FirstDefeat(hero, enemies, kill).None? ==>
      b.result.Ok? && b.result.value.value == LootSum(Fights(hero, enemies, kill))
    ensures FirstDefeat(hero, enemies, kill).Some? ==>
      b.result == Error(kill(hero, enemies[FirstDefeat(hero, enemies, kill).value]).message)
  {
    if |enemies| > 0 then Battle(Aggregate(Fights(hero, enemies, kill)), enemies)
    else Battle(Ok(Loot(0)), enemies)
  }

  /** The princess can be freed exactly when no enemy is left in the castle. */
  function FreeThePrincess(hero: Hero, castle: Castle): (r: Result<Option<Princess>>)
    ensures r.Error? <==> castle.hasEnemies
    ensures r.Error? ==> r.message == "Hero " + hero.name + " cannot free the princess, there are still enemies in the castle!"
    ensures r.Ok? ==> r.value == castle.princess
  {
    if castle.hasEnemies then Error("Hero " + hero.name + " cannot free the princess, there are still enemies in the castle!")
    else Ok(castle.princess)
  }

  /** Going home always succeeds, with or without a princess, and keeps hero, princess and loot. */
  function TravelingHome(hero: Hero, princess: Option<Princess>, loot: Loot): (r: Result<FairyTaleResult>)
    ensures r.Ok? && r.value.hero == hero && r.value.princess == princess && r.value.loot == loot
  {
    match princess
    case Some(_) => Ok(FairyTaleResult(hero, princess, loot))
    case None => Ok(FairyTaleResult(hero, princess, loot))
  }

  /** The total value of a loot list, summed from the front. */
  function ListValue(loot: seq<Loot>): int
  {
    if |loot| == 0 then 0 else loot[0].value + ListValue(loot[1..])
  }

  /** The Ok loot of a list of fights is worth what the looted items are worth. */
  lemma {:induction false} LootSumOfOkFights(rs: seq<Result<Loot>>, loot: seq<Loot>)
    requires |rs| == |loot|
    requires forall i :: 0 <= i < |rs| ==> rs[i] == Ok(loot[i])
    ensures LootSum(rs) == ListValue(loot)
  {
    if |rs| > 0 {
      LootSumOfOkFights(rs[1..], loot[1..]);
    }
  }

  /**
   * The two tellings agree on the verdict: both fail with the error of the
   * first lost fight, and when no fight is lost the nightmare's loot total is
   * the value of the lullaby's loot list. They differ in what was fought: the
   * lullaby stops after the first lost fight, the nightmare fights everyone.
   */
  lemma SameVerdictAsLullaby(hero: Hero, enemies: seq<Enemy>, kill: KillWithSword)
    ensures var lullaby := LullabyFairyTale.DefeatEnemies(hero, enemies, kill);
      var nightmare := DefeatEnemies(hero, enemies, kill);
      && (lullaby.result.Error? <==> nightmare.result.Error?)
      && (lullaby.result.Error? ==> lullaby.result.message == nightmare.result.message)
      && (lullaby.result.Ok? ==> nightmare.result.value.value == ListValue(lullaby.result.value))
      && lullaby.fought <= nightmare.fought
  {
    var lullaby := LullabyFairyTale.DefeatEnemies(hero, enemies, kill);
    if FirstDefeat(hero, enemies, kill).None? {
      LootSumOfOkFights(Fights(hero, enemies, kill), lullaby.result.value);
    }
  }
}
