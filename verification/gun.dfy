/** The projectile subsystem of `GunManager`: bullets fired locally or
    announced by a peer's `bulletFired` event, advanced every frame, retired
    on range or on a solid voxel, and tested against every player other than
    their shooter, a player hit sending a `playerHit` message.

    Distances are compared squared: `length() > 100` is `LengthSq > 10000`
    and `distanceTo < 0.5` is `DistanceSq < 0.25`. */
module GunManager {
  import opened Common
  import VoxelWorld

  /** Bullet speed: velocity is the firing direction times 60. */
  const BulletSpeed: real := 60.0
  /** Square of the range 100 beyond which a bullet is retired. */
  const MaxRangeSq: real := 10000.0
  /** Square of the hit radius 0.5. */
  const HitRadiusSq: real := 0.25

  datatype Bullet = Bullet(position: Vec3, velocity: Vec3, shooterId: string)

  /** A player the bullets are tested against; `meshPosition` is `None` when
      the entry is missing, has no mesh, or its mesh has no position. */
  datatype Avatar = Avatar(id: string, meshPosition: Option<Vec3>)

  /** Payload of `shootBullet` (sent) and `bulletFired` (received). */
  datatype Shot = Shot(id: string, origin: Vec3, direction: Vec3)

  /** Messages this client emits on its socket. */
  datatype Outgoing = ShootBullet(shot: Shot) | PlayerHit(hitPlayerId: string, shooterId: string)

  /** The state of one client's `GunManager`: its own id, the `active` flag and
      the local (`bullets`) and remote (`remoteBullets`) lists. */
  datatype Guns = Guns(playerId: string, active: bool, bullets: seq<Bullet>, remoteBullets: seq<Bullet>)

  /** What a frame is judged against: the voxel world, the remote players in
      the registry's key order, and the local player's mesh position. */
  datatype Scene = Scene(world: VoxelWorld.Grid, remotePlayers: seq<Avatar>, localPlayer: Option<Vec3>)

  /** The result of a handler: the new state and the messages it sent. */
  datatype Effect = Effect(guns: Guns, sent: seq<Outgoing>)

  function Initial(playerId: string): (g: Guns)
    ensures g.playerId == playerId && !g.active && g.bullets == [] && g.remoteBullets == []
  {
    Guns(playerId, false, [], [])
  }

  /** `setActive`: records the flag (listener registration is not modelled). */
  function SetActive(g: Guns, isActive: bool): (r: Guns)
    ensures r.active == isActive
    ensures r.playerId == g.playerId && r.bullets == g.bullets && r.remoteBullets == g.remoteBullets
  {
    if g.active == isActive then g else g.(active := isActive)
  }

  // ---------------------------------------------------------------------------
  // Spawning
  // ---------------------------------------------------------------------------

  function NewBullet(origin: Vec3, direction: Vec3, shooterId: string): Bullet
  {
    Bullet(origin, Scale(direction, BulletSpeed), shooterId)
  }

  /** `spawnBullet`: appends one bullet, to `remoteBullets` exactly when
      `isRemote`, leaving the other list as it was. */
  function SpawnBullet(g: Guns, origin: Vec3, direction: Vec3, isRemote: bool, shooterId: string): (r: Guns)
    ensures r.playerId == g.playerId && r.active == g.active
    ensures isRemote ==> r.bullets == g.bullets && |r.remoteBullets| == |g.remoteBullets| + 1
    ensures !isRemote ==> r.remoteBullets == g.remoteBullets && |r.bullets| == |g.bullets| + 1
    ensures var list := if isRemote then r.remoteBullets else r.bullets;
            var old_ := if isRemote then g.remoteBullets else g.bullets;
            && list[..|old_|] == old_
            && list[|old_|].position == origin
            && list[|old_|].velocity == Vec3(60.0 * direction.x, 60.0 * direction.y, 60.0 * direction.z)
            && list[|old_|].shooterId == shooterId
  {
    var b := NewBullet(origin, direction, shooterId);
    if isRemote then g.(remoteBullets := g.remoteBullets + [b]) else g.(bullets := g.bullets + [b])
  }

  /** The `bulletFired` handler: a shot announced under this client's own id
      is ignored; any other spawns one remote bullet tagged with the
      announcing id. */
  function OnBulletFired(g: Guns, data: Shot): (r: Guns)
    ensures data.id == g.playerId ==> r == g
    ensures data.id != g.playerId ==>
              && r.bullets == g.bullets
              && r.remoteBullets == g.remoteBullets + [Bullet(data.origin, Scale(data.direction, 60.0), data.id)]
    ensures r.playerId == g.playerId && r.active == g.active
  {
    if data.id == g.playerId then g else SpawnBullet(g, data.origin, data.direction, true, data.id)
  }

  /** `shoot`: nothing unless the manager is active and the gun is the
      selected weapon; otherwise it sends one `shootBullet` with the view ray
      and spawns one local bullet along it. */
  function Shoot(g: Guns, gunSelected: bool, origin: Vec3, direction: Vec3): (e: Effect)
    ensures !(g.active && gunSelected) ==> e == Effect(g, [])
    ensures g.active && gunSelected ==>
              && e.sent == [ShootBullet(Shot(g.playerId, origin, direction))]
              && e.guns.remoteBullets == g.remoteBullets
              && e.guns.bullets == g.bullets + [Bullet(origin, Scale(direction, 60.0), g.playerId)]
    ensures e.guns.playerId == g.playerId && e.guns.active == g.active
  {
    if !g.active || !gunSelected then Effect(g, [])
    else Effect(SpawnBullet(g, origin, direction, false, g.playerId), [ShootBullet(Shot(g.playerId, origin, direction))])
  }

  // ---------------------------------------------------------------------------
  // Ownership
  // ---------------------------------------------------------------------------

  /** The lists are split by owner: `bullets` holds only this client's own
      shots and `remoteBullets` only shots announced by other players. */
  predicate OwnersRight(g: Guns)
  {
    && (forall b | b in g.bullets :: b.shooterId == g.playerId)
    && (forall b | b in g.remoteBullets :: b.shooterId != g.playerId)
  }

  lemma InitialOwnersRight(playerId: string)
    ensures OwnersRight(Initial(playerId))
  {
  }

  lemma SetActiveKeepsOwners(g: Guns, isActive: bool)
    requires OwnersRight(g)
    ensures OwnersRight(SetActive(g, isActive))
  {
  }

  /** Spawning keeps the split exactly when the bullet goes to the list of
      its shooter's side. */
  lemma SpawnKeepsOwners(g: Guns, origin: Vec3, direction: Vec3, isRemote: bool, shooterId: string)
    requires OwnersRight(g)
    ensures OwnersRight(SpawnBullet(g, origin, direction, isRemote, shooterId)) <==>
              (isRemote <==> shooterId != g.playerId)
  {
    var r := SpawnBullet(g, origin, direction, isRemote, shooterId);
    var list := if isRemote then r.remoteBullets else r.bullets;
    var old_ := if isRemote then g.remoteBullets else g.bullets;
    assert list[|old_|] in list;
    assert list == old_ + [list[|old_|]];
  }

  lemma OnBulletFiredKeepsOwners(g: Guns, data: Shot)
    requires OwnersRight(g)
    ensures OwnersRight(OnBulletFired(g, data))
  {
    if data.id != g.playerId {
      SpawnKeepsOwners(g, data.origin, data.direction, true, data.id);
    }
  }

  lemma ShootKeepsOwners(g: Guns, gunSelected: bool, origin: Vec3, direction: Vec3)
    requires OwnersRight(g)
    ensures OwnersRight(Shoot(g, gunSelected, origin, direction).guns)
  {
    if g.active && gunSelected {
      SpawnKeepsOwners(g, origin, direction, false, g.playerId);
    }
  }

  // ---------------------------------------------------------------------------
  // Collision tests
  // ---------------------------------------------------------------------------

  /** `checkBlockCollision`: true exactly when the cell containing `p` lies in
      the world and holds a solid block; outside the world it is false. */
  function CheckBlockCollision(world: VoxelWorld.Grid, p: Vec3): (r: bool)
    ensures r <==> VoxelWorld.InBounds(world, p.x.Floor, p.y.Floor, p.z.Floor) &&
                   VoxelWorld.IsSolid(VoxelWorld.At(world, p.x.Floor, p.y.Floor, p.z.Floor))
  {
    match VoxelWorld.GetBlock(world, p.x.Floor, p.y.Floor, p.z.Floor)
    case None => false
    case Some(block) => block.id != VoxelWorld.EmptyId
  }

  /** An avatar a bullet at `pos` fired by `shooterId` hits. */
  predicate Qualifies(a: Avatar, pos: Vec3, shooterId: string)
  {
    a.meshPosition.Some? && a.id != shooterId && DistanceSq(pos, a.meshPosition.value) < HitRadiusSq
  }

  /** `checkPlayerCollision`: the id of the first player, in roster order,
      that has a mesh position, is not the shooter and is strictly within the
      hit radius; `None` when there is none. */
  function CheckPlayerCollision(pos: Vec3, shooterId: string, players: seq<Avatar>): (r: Option<string>)
    ensures r.Some? ==> r.value != shooterId
    ensures r.Some? ==> exists i :: 0 <= i < |players| && players[i].id == r.value
                                    && Qualifies(players[i], pos, shooterId)
                                    && forall j :: 0 <= j < i ==> !Qualifies(players[j], pos, shooterId)
    ensures r.None? <==> forall i :: 0 <= i < |players| ==> !Qualifies(players[i], pos, shooterId)
  {
    if |players| == 0 then None
    else
      var a := players[0];
      var rest := CheckPlayerCollision(pos, shooterId, players[1..]);
      if a.meshPosition.None? then rest
      else if a.id == shooterId then rest
      else if DistanceSq(pos, a.meshPosition.value) < HitRadiusSq then Some(a.id)
      else
        assert !Qualifies(a, pos, shooterId);
        assert forall i :: 1 <= i < |players| ==> players[i] == players[1..][i - 1];
        if rest.Some? then
          var k :| 0 <= k < |players[1..]| && players[1..][k].id == rest.value
                   && Qualifies(players[1..][k], pos, shooterId)
                   && forall j :: 0 <= j < k ==> !Qualifies(players[1..][j], pos, shooterId);
          assert players[k + 1] == players[1..][k];
          rest
        else rest
  }

  /** The players a bullet is tested against: the remote registry with the
      local player set under `playerId`, as `{...players, [playerId]: local}`
      builds it (an existing key keeps its place, a new one goes last). */
  function Roster(remote: seq<Avatar>, playerId: string, local: Option<Vec3>): (r: seq<Avatar>)
    ensures Avatar(playerId, local) in r
    ensures forall a | a in remote && a.id != playerId :: a in r
    ensures forall a | a in r :: a == Avatar(playerId, local) || (a in remote && a.id != playerId)
    ensures (exists i :: 0 <= i < |remote| && remote[i].id == playerId) ==>
              && |r| == |remote|
              && forall i :: 0 <= i < |remote| ==>
                   r[i] == (if remote[i].id == playerId then Avatar(playerId, local) else remote[i])
    ensures (forall i :: 0 <= i < |remote| ==> remote[i].id != playerId) ==>
              r == remote + [Avatar(playerId, local)]
  {
    if exists i :: 0 <= i < |remote| && remote[i].id == playerId then
      var r := seq(|remote|, i requires 0 <= i < |remote| =>
                 if remote[i].id == playerId then Avatar(playerId, local) else remote[i]);
      var k :| 0 <= k < |remote| && remote[k].id == playerId;
      assert r[k] == Avatar(playerId, local);
      forall a | a in remote && a.id != playerId ensures a in r {
        var i :| 0 <= i < |remote| && remote[i] == a;
        assert r[i] == a;
      }
      r
    else
      remote + [Avatar(playerId, local)]
  }

  function SceneRoster(scene: Scene, playerId: string): seq<Avatar>
  {
    Roster(scene.remotePlayers, playerId, scene.localPlayer)
  }

  // ---------------------------------------------------------------------------
  // One frame
  // ---------------------------------------------------------------------------

  /** Moves a bullet by `velocity * delta`. */
  function Advance(b: Bullet, delta: real): (r: Bullet)
    ensures r.velocity == b.velocity && r.shooterId == b.shooterId
    ensures Sub(r.position, b.position) == Scale(b.velocity, delta)
  {
    b.(position := Add(b.position, Scale(b.velocity, delta)))
  }

  /** What becomes of an advanced bullet this frame. */
  datatype Fate = Retired | HitPlayer(victim: string) | Flying

  predicate OutOfRange(b: Bullet)
  {
    LengthSq(b.position) > MaxRangeSq
  }

  /** The fate of an already-advanced bullet: retired on range or a solid
      cell; otherwise removed for the first player the collision test names,
      unless that id is the empty (falsy) string; otherwise still flying. */
  function FateOf(b: Bullet, scene: Scene, playerId: string): (f: Fate)
    ensures f == Retired <==> OutOfRange(b) || CheckBlockCollision(scene.world, b.position)
    ensures f.HitPlayer? ==>
              && !OutOfRange(b) && !CheckBlockCollision(scene.world, b.position)
              && f.victim != "" && f.victim != b.shooterId
              && exists a :: a in SceneRoster(scene, playerId) && a.id == f.victim && Qualifies(a, b.position, b.shooterId)
    ensures f.HitPlayer? ==> CheckPlayerCollision(b.position, b.shooterId, SceneRoster(scene, playerId)) == Some(f.victim)
    ensures f == Flying <==>
              && !OutOfRange(b) && !CheckBlockCollision(scene.world, b.position)
              && CheckPlayerCollision(b.position, b.shooterId, SceneRoster(scene, playerId)) in {None, Some("")}
  {
    if OutOfRange(b) || CheckBlockCollision(scene.world, b.position) then Retired
    else
      var hit := CheckPlayerCollision(b.position, b.shooterId, SceneRoster(scene, playerId));
      if hit.Some? && hit.value != "" then HitPlayer(hit.value) else Flying
  }

  /** The message a bullet's fate sends: `playerHit` for a player hit whose
      victim is not the shooter, nothing otherwise. */
  function Report(b: Bullet, f: Fate): (r: seq<Outgoing>)
    ensures |r| <= 1
    ensures r != [] <==> f.HitPlayer? && f.victim != b.shooterId
    ensures forall m | m in r :: m == PlayerHit(f.victim, b.shooterId)
  {
    if f.HitPlayer? && f.victim != b.shooterId then [PlayerHit(f.victim, b.shooterId)] else []
  }

  /** Reference result of `updateBulletList`: the advanced bullets still
      flying, in their original order. */
  function Survivors(list: seq<Bullet>, delta: real, scene: Scene, playerId: string): seq<Bullet>
  {
    if |list| == 0 then []
    else
      var b := Advance(list[0], delta);
      (if FateOf(b, scene, playerId) == Flying then [b] else []) + Survivors(list[1..], delta, scene, playerId)
  }

  /** Reference messages of `updateBulletList`: the list is walked from its
      last bullet to its first, so the reports come in that order. */
  function HitReports(list: seq<Bullet>, delta: real, scene: Scene, playerId: string): seq<Outgoing>
  {
    if |list| == 0 then []
    else
      var b := Advance(list[0], delta);
      HitReports(list[1..], delta, scene, playerId) + Report(b, FateOf(b, scene, playerId))
  }

  /** `updateBulletList`: walking from the last index down, advance each
      bullet, then splice it out on range or block, else splice it out and
      report on a player hit. */
  method UpdateBulletList(list: seq<Bullet>, delta: real, scene: Scene, playerId: string)
    returns (kept: seq<Bullet>, sent: seq<Outgoing>)
    ensures kept == Survivors(list, delta, scene, playerId)
    ensures sent == HitReports(list, delta, scene, playerId)
  {
    kept := [];
    sent := [];
    var i := |list|;
    while i > 0
      invariant 0 <= i <= |list|
      invariant kept == Survivors(list[i..], delta, scene, playerId)
      invariant sent == HitReports(list[i..], delta, scene, playerId)
    {
      i := i - 1;
      assert list[i..][1..] == list[i + 1..];
      var bullet := Advance(list[i], delta);
      if OutOfRange(bullet) || CheckBlockCollision(scene.world, bullet.position) {
        continue;
      }
      var hitPlayerId := CheckPlayerCollision(bullet.position, bullet.shooterId, SceneRoster(scene, playerId));
      if hitPlayerId.Some? && hitPlayerId.value != "" {
        if hitPlayerId.value != bullet.shooterId {
          sent := sent + [PlayerHit(hitPlayerId.value, bullet.shooterId)];
        }
      } else {
        kept := [bullet] + kept;
      }
    }
    assert list[0..] == list;
  }

  /** `update`: the remote list always advances; the local list only while the
      manager is active and the gun is selected. Remote reports go first. */
  method Update(g: Guns, delta: real, scene: Scene, gunSelected: bool) returns (e: Effect)
    ensures e.guns.playerId == g.playerId && e.guns.active == g.active
    ensures e.guns.remoteBullets == Survivors(g.remoteBullets, delta, scene, g.playerId)
    ensures g.active && gunSelected ==> e.guns.bullets == Survivors(g.bullets, delta, scene, g.playerId)
    ensures !(g.active && gunSelected) ==> e.guns.bullets == g.bullets
    ensures e.sent == HitReports(g.remoteBullets, delta, scene, g.playerId) +
                      (if g.active && gunSelected then HitReports(g.bullets, delta, scene, g.playerId) else [])
    ensures forall m | m in e.sent :: m.PlayerHit? && m.hitPlayerId != m.shooterId
    ensures OwnersRight(g) ==> OwnersRight(e.guns)
  {
    var remote, sentRemote := UpdateBulletList(g.remoteBullets, delta, scene, g.playerId);
    HitReportsSound(g.remoteBullets, delta, scene, g.playerId);
    SurvivorsKeepShooters(g.remoteBullets, delta, scene, g.playerId);
    SurvivorsKeepShooters(g.bullets, delta, scene, g.playerId);
    if !g.active || !gunSelected {
      return Effect(g.(remoteBullets := remote), sentRemote);
    }
    var local, sentLocal := UpdateBulletList(g.bullets, delta, scene, g.playerId);
    HitReportsSound(g.bullets, delta, scene, g.playerId);
    e := Effect(g.(remoteBullets := remote, bullets := local), sentRemote + sentLocal);
  }

  // ---------------------------------------------------------------------------
  // Properties of one frame
  // ---------------------------------------------------------------------------

  /** A bullet survives exactly when its advanced self is still flying. */
  lemma {:induction false} SurvivorsExact(list: seq<Bullet>, delta: real, scene: Scene, playerId: string, b: Bullet)
    ensures b in Survivors(list, delta, scene, playerId) <==>
              exists i :: 0 <= i < |list| && b == Advance(list[i], delta) && FateOf(b, scene, playerId) == Flying
  {
    if |list| > 0 {
      SurvivorsExact(list[1..], delta, scene, playerId, b);
      if exists i :: 0 <= i < |list| && b == Advance(list[i], delta) && FateOf(b, scene, playerId) == Flying {
        var i :| 0 <= i < |list| && b == Advance(list[i], delta) && FateOf(b, scene, playerId) == Flying;
        if i > 0 {
          assert list[1..][i - 1] == list[i];
        }
      }
    }
  }

  /** Every survivor was fired by the shooter of some bullet of the list. */
  lemma SurvivorsKeepShooters(list: seq<Bullet>, delta: real, scene: Scene, playerId: string)
    ensures forall b | b in Survivors(list, delta, scene, playerId) :: exists c | c in list :: c.shooterId == b.shooterId
  {
    forall b | b in Survivors(list, delta, scene, playerId)
      ensures exists c | c in list :: c.shooterId == b.shooterId
    {
      SurvivorsExact(list, delta, scene, playerId, b);
      var i :| 0 <= i < |list| && b == Advance(list[i], delta) && FateOf(b, scene, playerId) == Flying;
      assert list[i] in list;
    }
  }

  /** Survivors keep their relative order: the step distributes over
      concatenation. */
  lemma {:induction false} SurvivorsKeepOrder(a: seq<Bullet>, b: seq<Bullet>, delta: real, scene: Scene, playerId: string)
    ensures Survivors(a + b, delta, scene, playerId) ==
              Survivors(a, delta, scene, playerId) + Survivors(b, delta, scene, playerId)
  {
    if |a| > 0 {
      assert (a + b)[1..] == a[1..] + b;
      SurvivorsKeepOrder(a[1..], b, delta, scene, playerId);
    } else {
      assert a + b == b;
    }
  }

  /** Number of bullets a frame removes. */
  function RemovedCount(list: seq<Bullet>, delta: real, scene: Scene, playerId: string): nat
  {
    if |list| == 0 then 0
    else (if FateOf(Advance(list[0], delta), scene, playerId) == Flying then 0 else 1)
         + RemovedCount(list[1..], delta, scene, playerId)
  }

  /** Number of bullets a frame removes on a player hit. */
  function HitCount(list: seq<Bullet>, delta: real, scene: Scene, playerId: string): nat
  {
    if |list| == 0 then 0
    else (if FateOf(Advance(list[0], delta), scene, playerId).HitPlayer? then 1 else 0)
         + HitCount(list[1..], delta, scene, playerId)
  }

  /** Every bullet is either kept once or removed once. */
  lemma {:induction false} EachBulletOnce(list: seq<Bullet>, delta: real, scene: Scene, playerId: string)
    ensures |Survivors(list, delta, scene, playerId)| + RemovedCount(list, delta, scene, playerId) == |list|
  {
    if |list| > 0 {
      EachBulletOnce(list[1..], delta, scene, playerId);
    }
  }

  /** One `playerHit` per player hit and none for range or block
      retirements; each names a victim other than the shooter, and a bullet
      of that shooter was hitting that victim this frame. */
  lemma {:induction false} HitReportsSound(list: seq<Bullet>, delta: real, scene: Scene, playerId: string)
    ensures |HitReports(list, delta, scene, playerId)| == HitCount(list, delta, scene, playerId)
    ensures forall m | m in HitReports(list, delta, scene, playerId) ::
              && m.PlayerHit?
              && m.hitPlayerId != m.shooterId
              && exists i :: 0 <= i < |list| && list[i].shooterId == m.shooterId
                             && FateOf(Advance(list[i], delta), scene, playerId) == HitPlayer(m.hitPlayerId)
  {
    if |list| > 0 {
      HitReportsSound(list[1..], delta, scene, playerId);
      var rest := HitReports(list[1..], delta, scene, playerId);
      var b := Advance(list[0], delta);
      forall m | m in HitReports(list, delta, scene, playerId)
        ensures m.PlayerHit? && m.hitPlayerId != m.shooterId
        ensures exists i :: 0 <= i < |list| && list[i].shooterId == m.shooterId
                            && FateOf(Advance(list[i], delta), scene, playerId) == HitPlayer(m.hitPlayerId)
      {
        if m in rest {
          var i :| 0 <= i < |list[1..]| && list[1..][i].shooterId == m.shooterId
                   && FateOf(Advance(list[1..][i], delta), scene, playerId) == HitPlayer(m.hitPlayerId);
          assert list[i + 1] == list[1..][i];
        } else {
          assert m in Report(b, FateOf(b, scene, playerId));
          assert list[0].shooterId == m.shooterId;
        }
      }
    }
  }

  /** With no empty player id, a bullet that is neither out of range nor in a
      solid cell is removed exactly when some player other than its shooter
      is strictly within the hit radius. */
  lemma RemovedIffHit(b: Bullet, scene: Scene, playerId: string)
    requires forall a | a in SceneRoster(scene, playerId) :: a.id != ""
    ensures FateOf(b, scene, playerId) != Flying <==>
              OutOfRange(b) || CheckBlockCollision(scene.world, b.position) ||
              exists a :: a in SceneRoster(scene, playerId) && Qualifies(a, b.position, b.shooterId)
  {
    var roster := SceneRoster(scene, playerId);
    if exists a :: a in roster && Qualifies(a, b.position, b.shooterId) {
      var a :| a in roster && Qualifies(a, b.position, b.shooterId);
      var i :| 0 <= i < |roster| && roster[i] == a;
      assert CheckPlayerCollision(b.position, b.shooterId, roster).Some?;
    }
  }
}
