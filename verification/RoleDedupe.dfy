/** Migration 0028: duplicate roles collapse onto one canonical row per (name, organization),
    the NULL organization being one bucket. The parts of the statement all see the tables as
    they were; a link that both the delete and the update match is left to whichever comes
    first, and PostgreSQL promises no order. */
module RoleDedupe {
  import opened Options

  type RoleId = nat
  type UserId = nat
  datatype Role = Role(name: string, org: Option<nat>)
  datatype Link = Link(user: UserId, role: RoleId)

  type Roles = map<RoleId, Role>
  type Links = set<Link>

  /** The rows sharing a role's name and organization. */
  function Copies(roles: Roles, r: RoleId): (c: set<RoleId>)
    requires r in roles
    ensures r in c
  {
    set q | q in roles && roles[q] == roles[r]
  }

  lemma LeastExists(s: set<RoleId>) returns (least: RoleId)
    requires s != {}
    ensures least in s && forall x :: x in s ==> least <= x
    decreases |s|
  {
    least :| least in s;
    var rest := s - {least};
    if rest != {} {
      var m := LeastExists(rest);
      forall x | x in s ensures m <= x || least <= x {
        assert x == least || x in rest;
      }
      if m < least { least := m; }
    }
  }

  /** `canon`: the least id of the bucket. */
  function Keep(roles: Roles, r: RoleId): (k: RoleId)
    requires r in roles
    ensures k in roles && roles[k] == roles[r]
    ensures forall q :: q in roles && roles[q] == roles[r] ==> k <= q
  {
    assert exists k :: k in Copies(roles, r) && forall q :: q in Copies(roles, r) ==> k <= q by {
      var k := LeastExists(Copies(roles, r));
    }
    var k :| k in Copies(roles, r) && forall q :: q in Copies(roles, r) ==> k <= q;
    assert forall q :: q in roles && roles[q] == roles[r] ==> q in Copies(roles, r);
    k
  }

  predicate Duplicate(roles: Roles, r: RoleId) {
    r in roles && Keep(roles, r) != r
  }

  /** 1) links that would collide with a link to the canonical row go */
  function Surviving(roles: Roles, links: Links): Links {
    set l | l in links && !(Duplicate(roles, l.role) && Link(l.user, Keep(roles, l.role)) in links)
  }

  function Repoint(roles: Roles, l: Link): Link {
    if Duplicate(roles, l.role) then Link(l.user, Keep(roles, l.role)) else l
  }

  /** 2) the survivors move onto the canonical row */
  function Repointed(roles: Roles, links: Links): Links {
    set l | l in links :: Repoint(roles, l)
  }

  /** 3) the duplicates go */
  function Canonical(roles: Roles): Roles {
    map r | r in roles && !Duplicate(roles, r) :: roles[r]
  }

  /** Two surviving rows of `user_roles` that the update would give the same primary key. */
  ghost predicate Collides(roles: Roles, links: Links) {
    exists a, b :: a in links && b in links && a != b && Repoint(roles, a) == Repoint(roles, b)
  }

  /** A user holding two duplicates of one role, and not the canonical row. */
  ghost predicate DoublyDuplicated(roles: Roles, links: Links) {
    exists u, p, q :: Link(u, p) in links && Link(u, q) in links && p != q
      && Duplicate(roles, p) && Duplicate(roles, q) && roles[p] == roles[q]
      && Link(u, Keep(roles, p)) !in links
  }

  /** The links both parts match that the update reaches first; none in the commented order. */
  ghost predicate Spared(roles: Roles, links: Links, spared: Links) {
    spared <= links - Surviving(roles, links)
  }

  /** A user holding two copies of one role, canonical or not. */
  ghost predicate TwiceInOneBucket(roles: Roles, links: Links) {
    exists u, p, q :: Link(u, p) in links && Link(u, q) in links && p != q
      && p in roles && q in roles && roles[p] == roles[q]
  }

  /** The foreign key of `user_roles.role_id`. */
  predicate NoDangling(roles: Roles, links: Links) {
    forall l :: l in links ==> l.role in roles
  }

  ghost predicate OneRolePerBucket(roles: Roles) {
    forall p, q :: p in roles && q in roles && roles[p] == roles[q] ==> p == q
  }

  class ControlPlane {
    var roles: Roles
    var links: Links

    /** The whole statement, in an order that spares those links the delete; a primary-key
        violation undoes it. */
    method Dedupe(spared: Links) returns (ok: bool)
      requires NoDangling(roles, links) && Spared(roles, links, spared)
      modifies this
      ensures ok <==> spared == {} && !DoublyDuplicated(old(roles), old(links))
      ensures ok ==> roles == Canonical(old(roles)) && links == Repointed(old(roles), Surviving(old(roles), old(links)))
      ensures !ok ==> roles == old(roles) && links == old(links)
    {
      var deleted := set l | l in links && l !in spared
        && Duplicate(roles, l.role) && Link(l.user, Keep(roles, l.role)) in links;
      var kept := links - deleted;
      assert kept == Surviving(roles, links) + spared;
      OnlyDeletingFirstSucceeds(roles, links, spared);
      if exists a, b | a in kept && b in kept :: a != b && Repoint(roles, a) == Repoint(roles, b) {
        return false;
      }
      links := set l | l in kept :: Repoint(roles, l);
      roles := map r | r in roles && !Duplicate(roles, r) :: roles[r];
      ok := true;
    }
  }

  lemma KeepIsCanonical(roles: Roles, r: RoleId)
    requires r in roles
    ensures !Duplicate(roles, Keep(roles, r))
  {
  }

  lemma SameBucketSameKeep(roles: Roles, p: RoleId, q: RoleId)
    requires p in roles && q in roles && roles[p] == roles[q]
    ensures Keep(roles, p) == Keep(roles, q)
  {
  }

  /** In the commented order the update violates the primary key exactly when some user holds two
      duplicates of a role without the canonical row: neither link is deleted first, and both move
      onto it. */
  lemma CollisionsAreDoubles(roles: Roles, links: Links)
    requires NoDangling(roles, links)
    ensures Collides(roles, Surviving(roles, links)) <==> DoublyDuplicated(roles, links)
  {
    var kept := Surviving(roles, links);
    if Collides(roles, kept) {
      var a, b :| a in kept && b in kept && a != b && Repoint(roles, a) == Repoint(roles, b);
      if Duplicate(roles, a.role) { KeepIsCanonical(roles, a.role); }
      if Duplicate(roles, b.role) { KeepIsCanonical(roles, b.role); }
      assert Link(a.user, a.role) in links && Link(a.user, b.role) in links;
    }
    if DoublyDuplicated(roles, links) {
      var u, p, q :| Link(u, p) in links && Link(u, q) in links && p != q
        && Duplicate(roles, p) && Duplicate(roles, q) && roles[p] == roles[q]
        && Link(u, Keep(roles, p)) !in links;
      SameBucketSameKeep(roles, p, q);
      assert Link(u, p) in kept && Link(u, q) in kept;
      assert Repoint(roles, Link(u, p)) == Repoint(roles, Link(u, q));
    }
  }

  /** In whatever order the parts run, the statement succeeds exactly when every colliding link is
      deleted before it is moved, and no user holds two duplicates without the canonical row. */
  lemma OnlyDeletingFirstSucceeds(roles: Roles, links: Links, spared: Links)
    requires NoDangling(roles, links) && Spared(roles, links, spared)
    ensures !Collides(roles, Surviving(roles, links) + spared) <==> spared == {} && !DoublyDuplicated(roles, links)
  {
    var kept := Surviving(roles, links);
    CollisionsAreDoubles(roles, links);
    if spared == {} {
      assert kept + spared == kept;
    } else {
      var l :| l in spared;
      var target := Link(l.user, Keep(roles, l.role));
      KeepIsCanonical(roles, l.role);
      assert l in kept + spared && target in kept + spared;
      assert l != target && Repoint(roles, l) == target == Repoint(roles, target);
    }
  }

  /** No order of the delete and the update gives two links one key. */
  ghost predicate AnyOrderSucceeds(roles: Roles, links: Links) {
    forall spared | Spared(roles, links, spared) :: !Collides(roles, Surviving(roles, links) + spared)
  }

  /** Every order succeeds exactly when no user holds two copies of one role. */
  lemma EveryOrderSucceeds(roles: Roles, links: Links)
    requires NoDangling(roles, links)
    ensures AnyOrderSucceeds(roles, links) <==> !TwiceInOneBucket(roles, links)
  {
    var kept := Surviving(roles, links);
    var rest := links - kept;
    if TwiceInOneBucket(roles, links) {
      var u, p, q :| Link(u, p) in links && Link(u, q) in links && p != q && roles[p] == roles[q];
      SameBucketSameKeep(roles, p, q);
      assert kept + rest == links && Spared(roles, links, rest);
      assert Repoint(roles, Link(u, p)) == Repoint(roles, Link(u, q));
      assert Collides(roles, kept + rest);
    } else {
      forall spared | Spared(roles, links, spared) ensures !Collides(roles, kept + spared) {
        if Collides(roles, kept + spared) {
          CollisionIsTwice(roles, links, kept + spared);
          assert false;
        }
      }
    }
  }

  lemma CollisionIsTwice(roles: Roles, links: Links, some: Links)
    requires NoDangling(roles, links) && some <= links && Collides(roles, some)
    ensures TwiceInOneBucket(roles, links)
  {
    var a, b :| a in some && b in some && a != b && Repoint(roles, a) == Repoint(roles, b);
    assert Link(a.user, a.role) in links && Link(a.user, b.role) in links;
    assert roles[a.role] == roles[b.role];
  }

  /** Tables the commented order repairs and the other one fails on: a user on the canonical row and
      on one duplicate. */
  lemma UpdatingFirstCollides(role: Role, u: UserId, a: RoleId, b: RoleId)
    requires a < b
    ensures var roles, links := map[a := role, b := role], {Link(u, a), Link(u, b)};
            && NoDangling(roles, links) && Spared(roles, links, {Link(u, b)})
            && !Collides(roles, Surviving(roles, links))
            && Collides(roles, Surviving(roles, links) + {Link(u, b)})
  {
    var roles, links := map[a := role, b := role], {Link(u, a), Link(u, b)};
    assert a in roles && roles[a] == role && roles[b] == role;
    assert Keep(roles, a) <= a && Keep(roles, b) <= a;
    assert Keep(roles, a) in roles && Keep(roles, b) in roles;
    assert Link(u, Keep(roles, b)) in links && Link(u, b) !in Surviving(roles, links);
    OnlyDeletingFirstSucceeds(roles, links, {});
    OnlyDeletingFirstSucceeds(roles, links, {Link(u, b)});
    assert Surviving(roles, links) + {} == Surviving(roles, links);
  }

  /** Such tables: three equal roles, and a user on the two that are not canonical. */
  lemma TwoOfThreeCopiesCollide(role: Role, u: UserId, a: RoleId, b: RoleId, c: RoleId)
    requires a < b < c
    ensures var roles, links := map[a := role, b := role, c := role], {Link(u, b), Link(u, c)};
            NoDangling(roles, links) && DoublyDuplicated(roles, links) && Collides(roles, Surviving(roles, links))
  {
    var roles, links := map[a := role, b := role, c := role], {Link(u, b), Link(u, c)};
    assert a in roles && roles[a] == role && roles[b] == role && roles[c] == role;
    assert Keep(roles, b) <= a && Keep(roles, c) <= a;
    assert Keep(roles, b) in roles && Keep(roles, c) in roles;
    assert Keep(roles, b) == a == Keep(roles, c);
    assert Link(u, b) in links && Link(u, c) in links && Link(u, a) !in links;
    assert DoublyDuplicated(roles, links);
    CollisionsAreDoubles(roles, links);
  }

  /** One role per name and organization, system roles included, and every role of before is
      represented. */
  lemma RolesAreUnique(roles: Roles)
    ensures OneRolePerBucket(Canonical(roles))
    ensures Canonical(roles).Values == roles.Values
  {
    var roles' := Canonical(roles);
    forall p, q | p in roles' && q in roles' && roles'[p] == roles'[q] ensures p == q {
      SameBucketSameKeep(roles, p, q);
    }
    forall v | v in roles.Values ensures v in roles'.Values {
      var r :| r in roles && roles[r] == v;
      KeepIsCanonical(roles, r);
      assert roles'[Keep(roles, r)] == v;
    }
  }

  /** No link dangles, and every user holds the same roles as before. */
  lemma UsersKeepTheirRoles(roles: Roles, links: Links, u: UserId, role: Role)
    requires NoDangling(roles, links)
    ensures var links' := Repointed(roles, Surviving(roles, links));
            NoDangling(Canonical(roles), links') &&
            ((exists l :: l in links' && l.user == u && Canonical(roles)[l.role] == role) <==>
             (exists l :: l in links && l.user == u && roles[l.role] == role))
  {
    var kept := Surviving(roles, links);
    var roles', links' := Canonical(roles), Repointed(roles, kept);
    forall l | l in links' ensures l.role in roles' {
      var k :| k in kept && l == Repoint(roles, k);
      KeepIsCanonical(roles, k.role);
    }
    if l :| l in links && l.user == u && roles[l.role] == role {
      var target := Link(u, Keep(roles, l.role));
      KeepIsCanonical(roles, l.role);
      if l in kept {
        assert Repoint(roles, l) == target;
      } else {
        assert target in kept && Repoint(roles, target) == target;
      }
      assert target in links' && roles'[target.role] == role;
    }
    if l :| l in links' && l.user == u && roles'[l.role] == role {
      var k :| k in kept && l == Repoint(roles, k);
      assert k in links && k.user == u && roles[k.role] == role;
    }
  }

  /** On tables without duplicates the statement changes nothing, so a second run is a no-op. */
  lemma DedupeIsIdempotent(roles: Roles, links: Links)
    requires NoDangling(roles, links)
    ensures var roles', links' := Canonical(roles), Repointed(roles, Surviving(roles, links));
            Canonical(roles') == roles' && Repointed(roles', Surviving(roles', links')) == links'
  {
    RolesAreUnique(roles);
    NoDuplicatesNoChange(Canonical(roles), Repointed(roles, Surviving(roles, links)));
  }

  lemma NoDuplicatesNoChange(roles: Roles, links: Links)
    requires OneRolePerBucket(roles)
    ensures Canonical(roles) == roles && Repointed(roles, Surviving(roles, links)) == links
  {
    assert forall r :: r in roles ==> !Duplicate(roles, r);
    assert Surviving(roles, links) == links;
    forall l | l in links ensures l in Repointed(roles, links) {
      assert Repoint(roles, l) == l;
    }
  }
}
