/**
 * The lullaby telling of the adventure: the hero fights the enemies one
 * after the other and stops at the first lost fight; the loot is collected
 * in a list.
 */
module LullabyFairyTale {
  import opened Wrappers
  import opened Adventure

  datatype FairyTaleResult = FairyTaleResult(hero: Hero, princess: Option<Princess>, loot: seq<Loot>)

  /** One fight: the sword fight's result, passed on unchanged (the console line aside). */
  function DefeatEnemy(hero: Hero, enemy: Enemy, kill: KillWithSword): (r: Result<Loot>)
    ensures r == kill(hero, enemy)
  {
    kill(hero, enemy).Map(l => l)
  }

  /**
   * One step of the fold: a lost battle stays lost and fights no one more;
   * otherwise `enemy` is fought and, when beaten, its loot is added.
   */
  function Step(hero: Hero, kill: KillWithSword, current: Battle<seq<Loot>>, enemy: Enemy): Battle<seq<Loot>>
  {
    match current.result
    case Error(m) => Battle(Error(m), current.fought)
    case Ok(loot) => Battle(DefeatEnemy(hero, enemy, kill).Map(l => loot + [l]), current.fought + [enemy])
  }

  /**
   * What the fold promises for `enemies`: with no lost fight, every enemy
   * was fought and the loot lists one entry per enemy in enemy order;
   * otherwise the result is the error of the first lost fight and no enemy
   * after it was fought.
   */
  ghost predicate FoldsTo(hero: Hero, enemies: seq<Enemy>, kill: KillWithSword, b: Battle<seq<Loot>>)
  {
    && (FirstDefeat(hero, enemies, kill).None? ==>
          && b.fought == enemies
          && b.result.Ok? && |b.result.value| == |enemies|
          && forall i :: 0 <= i < |enemies| ==> b.result.value[i] == kill(hero, enemies[i]).value)
    && (FirstDefeat(hero, enemies, kill).Some? ==>
          var k := FirstDefeat(hero, enemies, kill).value;
          && b.result == Error(kill(hero, enemies[k]).message)
          && b.fought == enemies[..k + 1])
  }

  /** One more step keeps the fold's promise, now for one more enemy. */
  lemma FoldStep(hero: Hero, enemies: seq<Enemy>, kill: KillWithSword, before: Battle<seq<Loot>>)
    requires |enemies| > 0
    requires FoldsTo(hero, enemies[..|enemies| - 1], kill, before)
    ensures FoldsTo(hero, enemies, kill, Step(hero, kill, before, enemies[|enemies| - 1]))
  {
    var n := |enemies| - 1;
    FirstDefeatSnoc(hero, enemies, kill);
    if FirstDefeat(hero, enemies[..n], kill).Some? {
      StepAfterDefeat(hero, enemies, kill, before);
    } else {
      assert forall i :: 0 <= i < n ==> enemies[..n][i] == enemies[i];
      StepWithoutDefeat(hero, enemies, kill, before);
      assert enemies[..n + 1] == enemies;
    }
  }

  /** A battle already lost stays lost with the same error and the same enemies fought. */
  lemma StepAfterDefeat(hero: Hero, enemies: seq<Enemy>, kill: KillWithSword, before: Battle<seq<Loot>>)
    requires |enemies| > 0
    requires FirstDefeat(hero, enemies[..|enemies| - 1], kill).Some?
    requires FirstDefeat(hero, enemies, kill) == FirstDefeat(hero, enemies[..|enemies| - 1], kill)
    requires FoldsTo(hero, enemies[..|enemies| - 1], kill, before)
    ensures FoldsTo(hero, enemies, kill, Step(hero, kill, before, enemies[|enemies| - 1]))
  {
    var n := |enemies| - 1;
    var k := FirstDefeat(hero, enemies[..n], kill).value;
    assert enemies[..n][k] == enemies[k];
    assert enemies[..n][..k + 1] == enemies[..k + 1];
  }

  /**
   * A battle won so far, with one loot entry per enemy fought, fights the
   * new enemy: a win appends its loot, a loss ends in its error.
   */
  lemma StepWithoutDefeat(hero: Hero, enemies: seq<Enemy>, kill: KillWithSword, before: Battle<seq<Loot>>)
    requires |enemies| > 0
    requires forall i :: 0 <= i < |enemies| - 1 ==> kill(hero, enemies[i]).Ok?
    requires before.fought == enemies[..|enemies| - 1]
    requires before.result.Ok? && |before.result.value| == |enemies| - 1
    requires forall i :: 0 <= i < |enemies| - 1 ==> before.result.value[i] == kill(hero, enemies[i]).value
    ensures var last := kill(hero, enemies[|enemies| - 1]);
      && Step(hero, kill, before, enemies[|enemies| - 1]).fought == enemies
      && (last.Error? ==> Step(hero, kill, before, enemies[|enemies| - 1]).result == Error(last.message))
      && (last.Ok? ==>
            var b := Step(hero, kill, before, enemies[|enemies| - 1]);
            && b.result.Ok? && |b.result.value| == |enemies|
            && forall i :: 0 <= i < |enemies| ==> b.result.value[i] == kill(hero, enemies[i]).value)
  {
    var n := |enemies| - 1;
    var loot := before.result.value;
    assert before.fought + [enemies[n]] == enemies;
    var r := kill(hero, enemies[n]);
    if r.Ok? {
      var all := loot + [r.value];
      assert Step(hero, kill, before, enemies[n]) == Battle(Ok(all), enemies);
      forall i | 0 <= i < |enemies|
        ensures all[i] == kill(hero, enemies[i]).value
      {
        if i < n {
          assert enemies[..n][i] == enemies[i];
        }
      }
    } else {
      assert Step(hero, kill, before, enemies[n]) == Battle(Error(r.message), enemies);
    }
  }

  /**
   * The fights, folded from the left with a short-circuiting bind: with no
   * lost fight the loot lists one entry per enemy in enemy order and every
   * enemy was fought; otherwise the result is the error of the first lost
   * fight and no enemy after it was fought.
   */
  function DefeatEnemies(hero: Hero, enemies: seq<Enemy>, kill: KillWithSword): (b: Battle<seq<Loot>>)
    ensures FirstDefeat(hero, enemies, kill).None? ==>
      && b.fought == enemies
      && b.result.Ok? && |b.result.value| == |enemies|
      && forall i :: 0 <= i < |enemies| ==> b.result.value[i] == kill(hero, enemies[i]).value
    ensures FirstDefeat(hero, enemies, kill).Some? ==>
      var k := FirstDefeat(hero, enemies, kill).value;
      && b.result == Error(kill(hero, enemies[k]).message)
      && b.fought == enemies[..k + 1]
  {
    if |enemies| == 0 then Battle(Ok([]), [])
    else
      var n := |enemies| - 1;
      var before := DefeatEnemies(hero, enemies[..n], kill);
      FoldStep(hero, enemies, kill, before);
      Step(hero, kill, before, enemies[n])
  }

  /** The princess can be freed exactly when no enemy is left in the castle. */
  function FreeThePrincess(hero: Hero, castle: Castle): (r: Result<Option<Princess>>)
    ensures r.Error? <==> castle.hasEnemies
    ensures r.Error? ==> r.message == "Hero " + hero.name + " cannot free the princess, there are still enemies in the castle!"
    ensures r.Ok? ==> r.value == castle.princess
  {
    if castle.hasEnemies then Error("Hero " + hero.name + " cannot free the princess, there are still enemies in the castle!")
    else Ok(castle.princess)
  }

  /** Going home always succeeds, with or without a princess, and keeps hero, princess and loot. */
  function TravelingHome(hero: Hero, princess: Option<Princess>, loot: seq<Loot>): (r: Result<FairyTaleResult>)
    ensures r.Ok? && r.value.hero == hero && r.value.princess == princess && r.value.loot == loot
  {
    match princess
    case Some(_) => Ok(FairyTaleResult(hero, princess, loot))
    case None => Ok(FairyTaleResult(hero, princess, loot))
  }
}
