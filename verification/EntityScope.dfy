/**
 Explicit scope settings, `server/src/world/entity_scope_map.rs`: one map from
 (user, entity) pairs to a flag and two reverse indexes, kept in step by hand.
 */
module EntityScope {
  import opened Options

  type UserKey = nat
  type GlobalEntity = nat
  type Settings = map<(UserKey, GlobalEntity), bool>

  datatype Change =
    | Insert(user: UserKey, entity: GlobalEntity, inScope: bool)
    | RemoveUser(user: UserKey)
    | RemoveEntity(entity: GlobalEntity)

  // ----- a plain map under the same changes -----

  function Applied(m: Settings, c: Change): Settings {
    match c
    case Insert(u, e, inScope) => m[(u, e) := inScope]
    case RemoveUser(u) => map k | k in m && k.0 != u :: m[k]
    case RemoveEntity(e) => map k | k in m && k.1 != e :: m[k]
  }

  function Run(changes: seq<Change>): Settings {
    if changes == [] then map[] else Applied(Run(changes[..|changes| - 1]), changes[|changes| - 1])
  }

  predicate Concerns(c: Change, u: UserKey, e: GlobalEntity) {
    (c.RemoveEntity? || c.user == u) && (c.RemoveUser? || c.entity == e)
  }

  /** Change `i` is the last one that concerns the pair. */
  ghost predicate LastWord(changes: seq<Change>, i: nat, u: UserKey, e: GlobalEntity) {
    && i < |changes| && Concerns(changes[i], u, e)
    && forall j :: i < j < |changes| ==> !Concerns(changes[j], u, e)
  }

  /** A pair has a setting exactly when the last change that concerns it inserted one, and it is that one. */
  lemma {:induction false} LookupIsLastWord(changes: seq<Change>, u: UserKey, e: GlobalEntity)
    ensures (u, e) in Run(changes) <==> exists i: nat :: LastWord(changes, i, u, e) && changes[i].Insert?
    ensures forall i: nat :: LastWord(changes, i, u, e) && changes[i].Insert? ==> Run(changes)[(u, e)] == changes[i].inScope
  {
    if changes != [] {
      var n := |changes| - 1;
      var before := changes[..n];
      LookupIsLastWord(before, u, e);
      if Concerns(changes[n], u, e) {
        assert LastWord(changes, n, u, e);
        assert forall i: nat :: LastWord(changes, i, u, e) ==> i == n;
      } else {
        forall i: nat ensures LastWord(changes, i, u, e) <==> LastWord(before, i, u, e) {
          if LastWord(changes, i, u, e) {
            assert forall j :: i < j < n ==> before[j] == changes[j];
          }
        }
      }
    }
  }

  // ----- the three maps -----

  class EntityScopeMap {
    var entitiesOfUser: map<UserKey, set<GlobalEntity>>
    var usersOfEntity: map<GlobalEntity, set<UserKey>>
    var mainMap: Settings

    predicate UserLists(u: UserKey, e: GlobalEntity)
      reads this
    {
      u in entitiesOfUser && e in entitiesOfUser[u]
    }

    predicate EntityLists(e: GlobalEntity, u: UserKey)
      reads this
    {
      e in usersOfEntity && u in usersOfEntity[e]
    }

    /** The three maps hold the same pairs. */
    ghost predicate Valid()
      reads this
    {
      forall u: UserKey, e: GlobalEntity :: ((u, e) in mainMap <==> UserLists(u, e)) && ((u, e) in mainMap <==> EntityLists(e, u))
    }

    constructor ()
      ensures Valid() && mainMap == Run([])
    {
      entitiesOfUser, usersOfEntity, mainMap := map[], map[], map[];
    }

    method Get(u: UserKey, e: GlobalEntity) returns (r: Option<bool>)
      ensures r == if (u, e) in mainMap then Some(mainMap[(u, e)]) else None
    {
      return if (u, e) in mainMap then Some(mainMap[(u, e)]) else None;
    }

    method InsertSetting(u: UserKey, e: GlobalEntity, inScope: bool)
      requires Valid()
      modifies this
      ensures Valid() && mainMap == Applied(old(mainMap), Insert(u, e, inScope))
    {
      if u !in entitiesOfUser {
        entitiesOfUser := entitiesOfUser[u := {}];
      }
      if e !in usersOfEntity {
        usersOfEntity := usersOfEntity[e := {}];
      }
      entitiesOfUser := entitiesOfUser[u := entitiesOfUser[u] + {e}];
      usersOfEntity := usersOfEntity[e := usersOfEntity[e] + {u}];
      mainMap := mainMap[(u, e) := inScope];
    }

    method RemoveUserSettings(u: UserKey)
      requires Valid()
      modifies this
      ensures Valid() && mainMap == Applied(old(mainMap), RemoveUser(u))
    {
      if u in entitiesOfUser {
        var todo := entitiesOfUser[u];
        while todo != {}
          invariant entitiesOfUser == old(entitiesOfUser) && todo <= entitiesOfUser[u]
          invariant forall e: GlobalEntity :: EntityLists(e, u) <==> e in todo
          invariant forall u': UserKey, e: GlobalEntity :: u' != u ==> (EntityLists(e, u') <==> (u', e) in mainMap)
          invariant forall e: GlobalEntity :: (u, e) in mainMap <==> e in todo
          invariant forall k: (UserKey, GlobalEntity) :: k.0 != u && k in old(mainMap) ==> k in mainMap
          invariant forall k :: k in mainMap ==> k in old(mainMap) && mainMap[k] == old(mainMap)[k]
        {
          var e :| e in todo;
          if e in usersOfEntity {
            usersOfEntity := usersOfEntity[e := usersOfEntity[e] - {u}];
            mainMap := mainMap - {(u, e)};
          }
          todo := todo - {e};
        }
      }
      entitiesOfUser := entitiesOfUser - {u};
      forall k ensures k in mainMap <==> k in old(mainMap) && k.0 != u {
        assert k == (k.0, k.1);
      }
    }

    method RemoveEntitySettings(e: GlobalEntity)
      requires Valid()
      modifies this
      ensures Valid() && mainMap == Applied(old(mainMap), RemoveEntity(e))
    {
      if e in usersOfEntity {
        var todo := usersOfEntity[e];
        while todo != {}
          invariant usersOfEntity == old(usersOfEntity) && todo <= usersOfEntity[e]
          invariant forall u: UserKey :: UserLists(u, e) <==> u in todo
          invariant forall u: UserKey, e': GlobalEntity :: e' != e ==> (UserLists(u, e') <==> (u, e') in mainMap)
          invariant forall u: UserKey :: (u, e) in mainMap <==> u in todo
          invariant forall k: (UserKey, GlobalEntity) :: k.1 != e && k in old(mainMap) ==> k in mainMap
          invariant forall k :: k in mainMap ==> k in old(mainMap) && mainMap[k] == old(mainMap)[k]
        {
          var u :| u in todo;
          if u in entitiesOfUser {
            entitiesOfUser := entitiesOfUser[u := entitiesOfUser[u] - {e}];
            mainMap := mainMap - {(u, e)};
          }
          todo := todo - {u};
        }
      }
      usersOfEntity := usersOfEntity - {e};
      forall k ensures k in mainMap <==> k in old(mainMap) && k.1 != e {
        assert k == (k.0, k.1);
      }
    }
  }
}
