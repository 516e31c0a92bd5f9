/**
 * The user/vacation table: composite keys, the booking validator and the
 * item-level operations, all over a table held as a map from (pk, sk) to item.
 */
module Store {
  import opened Wrappers
  import opened Errors
  import opened Dates
  import opened Strings

  const USER: string := "USER"
  const VACATION: string := "VACATION"

  const PENDING: string := "PENDING"
  const APPROVED: string := "APPROVED"
  const DECLINED: string := "DECLINED"

  const USER_ID: string := "user_id"
  const VACATION_ID: string := "vacation_id"
  const USERNAME: string := "username"
  const START_DATE: string := "vacation_start_date"
  const END_DATE: string := "vacation_end_date"
  const STATUS: string := "vacation_status"

  /**
   * The non-key attributes of a stored item; an absent attribute is `None`.
   * User records carry only `userId` and `username`; vacation records carry all six.
   */
  datatype Item = Item(
    userId: Option<string>,
    vacationId: Option<string>,
    username: Option<string>,
    start: Option<Day>,
    end: Option<Day>,
    status: Option<string>)

  /** (partition key, sort key) */
  type Key = (string, string)

  type Table = map<Key, Item>

  /** A dictionary read that raises `KeyError` on an absent attribute. */
  function Need<T>(o: Option<T>, attribute: string): (r: Result<T, Exception>)
    ensures o.Some? <==> r.Success?
    ensures o.Some? ==> r.value == o.value
    ensures o.None? ==> r.error == KeyError(attribute)
  {
    match o
    case Some(v) => Success(v)
    case None => Failure(KeyError(attribute))
  }

  function GenerateKey(entity: string, name: string): string
  {
    entity + "#" + name
  }

  function UserPk(userId: string): string
  {
    GenerateKey(USER, userId)
  }

  /** A user record uses the same value for both key fields. */
  function UserKey(userId: string): Key
  {
    (UserPk(userId), UserPk(userId))
  }

  function VacationKey(userId: string, vacationId: string): Key
  {
    (UserPk(userId), GenerateKey(VACATION, vacationId))
  }

  /** Keys the user-vacation query matches: partition of the user, sort key beginning with "VACATION". */
  predicate IsVacationKeyOf(k: Key, userId: string)
  {
    k.0 == UserPk(userId) && StartsWith(k.1, VACATION)
  }

  predicate Dated(item: Item)
  {
    item.start.Some? && item.end.Some?
  }

  /** The closed intervals [s1, e1] and [s2, e2] intersect, as the validator tests it. */
  predicate Overlaps(s1: Day, e1: Day, s2: Day, e2: Day)
  {
    e1 >= s2 && s1 <= e2
  }

  predicate Within(d: Day, lo: Day, hi: Day)
  {
    lo <= d <= hi
  }

  /** Two non-empty closed intervals pass the validator's test exactly when they share a day. */
  lemma OverlapsIffCommonDay(s1: Day, e1: Day, s2: Day, e2: Day)
    requires s1 <= e1 && s2 <= e2
    ensures Overlaps(s1, e1, s2, e2) <==> exists d :: Within(d, s1, e1) && Within(d, s2, e2)
  {
    if Overlaps(s1, e1, s2, e2) {
      var d := if s1 < s2 then s2 else s1;
      assert Within(d, s1, e1) && Within(d, s2, e2);
    }
  }

  /** A user's dated vacations are pairwise disjoint. */
  ghost predicate VacationsDisjoint(t: Table, userId: string)
  {
    forall k1, k2 ::
      k1 in t && k2 in t && k1 != k2 && IsVacationKeyOf(k1, userId) && IsVacationKeyOf(k2, userId)
      && Dated(t[k1]) && Dated(t[k2])
      ==> !Overlaps(t[k1].start.value, t[k1].end.value, t[k2].start.value, t[k2].end.value)
  }

  predicate ConflictsWith(item: Item, start: Day, end: Day)
    requires Dated(item)
  {
    Overlaps(item.start.value, item.end.value, start, end)
  }

  /** The vacations before position j are dated and do not meet [start, end]: the loop reaches item j. */
  predicate ClearBefore(start: Day, end: Day, existing: seq<Item>, j: int)
    requires 0 <= j <= |existing|
  {
    forall i :: 0 <= i < j ==> Dated(existing[i]) && !ConflictsWith(existing[i], start, end)
  }

  /** The loop over existing vacations: dates read in order, first conflict raises. */
  function CheckExisting(start: Day, end: Day, existing: seq<Item>): (r: Result<(), Exception>)
    ensures r.Success? ==> forall i :: 0 <= i < |existing| ==> Dated(existing[i]) && !ConflictsWith(existing[i], start, end)
    ensures (forall i :: 0 <= i < |existing| ==> Dated(existing[i])) ==>
      (r.Success? <==> forall i :: 0 <= i < |existing| ==> !ConflictsWith(existing[i], start, end))
    ensures (forall i :: 0 <= i < |existing| ==> Dated(existing[i])) && r.Failure? ==>
      r.error == ValidationError(IntersectsExisting)
    ensures r.Failure? ==> r.error.KeyError? || r.error == ValidationError(IntersectsExisting)
    ensures forall j :: 0 <= j < |existing| && !Dated(existing[j]) && ClearBefore(start, end, existing, j) ==>
      r.Failure? && r.error.KeyError?
    ensures forall j :: 0 <= j < |existing| && Dated(existing[j]) && ConflictsWith(existing[j], start, end)
                        && ClearBefore(start, end, existing, j)
                        ==> r == Failure(ValidationError(IntersectsExisting))
  {
    if existing == [] then Success(())
    else
      var v := existing[0];
      if v.start.None? then Failure(KeyError(START_DATE))
      else if v.end.None? then Failure(KeyError(END_DATE))
      else if Overlaps(v.start.value, v.end.value, start, end) then Failure(ValidationError(IntersectsExisting))
      else
        var rest := CheckExisting(start, end, existing[1..]);
        assert forall i :: 1 <= i < |existing| ==> existing[i] == existing[1..][i - 1];
        rest
  }

  /** validate_new_vacation: date order first, then the closed-interval test against every existing vacation. */
  function ValidateNewVacation(start: Day, end: Day, existing: seq<Item>): (r: Result<(), Exception>)
    ensures start > end ==> r == Failure(ValidationError(StartAfterEnd))
    ensures r.Success? ==> start <= end
    ensures r.Success? ==> forall i :: 0 <= i < |existing| ==> Dated(existing[i]) && !ConflictsWith(existing[i], start, end)
    ensures start <= end && (forall i :: 0 <= i < |existing| ==> Dated(existing[i])) ==>
      (r.Success? <==> forall i :: 0 <= i < |existing| ==> !ConflictsWith(existing[i], start, end))
    ensures existing == [] ==> (r.Success? <==> start <= end)
    ensures start <= end ==> forall j :: 0 <= j < |existing| && !Dated(existing[j]) && ClearBefore(start, end, existing, j) ==>
      r.Failure? && r.error.KeyError?
    ensures start <= end ==> forall j :: 0 <= j < |existing| && Dated(existing[j]) && ConflictsWith(existing[j], start, end)
                                         && ClearBefore(start, end, existing, j)
                                         ==> r == Failure(ValidationError(IntersectsExisting))
  {
    if start > end then Failure(ValidationError(StartAfterEnd))
    else CheckExisting(start, end, existing)
  }

  function UserItem(userId: string, username: string): Item
  {
    Item(Some(userId), None, Some(username), None, None, None)
  }

  function VacationItem(userId: string, vacationId: string, username: string, start: Day, end: Day, status: string): Item
  {
    Item(Some(userId), Some(vacationId), Some(username), Some(start), Some(end), Some(status))
  }

  /** save_user_to_db: `put_item` replaces whatever the user key held. */
  function SaveUser(t: Table, userId: string, username: string): (r: Table)
    ensures r.Keys == t.Keys + {UserKey(userId)}
    ensures r[UserKey(userId)] == UserItem(userId, username)
    ensures forall k :: k in t && k != UserKey(userId) ==> r[k] == t[k]
  {
    t[UserKey(userId) := UserItem(userId, username)]
  }

  /** get_user_from_db: the item, or None when absent. */
  function GetUser(t: Table, userId: string): (r: Option<Item>)
    ensures r.Some? <==> UserKey(userId) in t
    ensures r.Some? ==> r.value == t[UserKey(userId)]
  {
    if UserKey(userId) in t then Some(t[UserKey(userId)]) else None
  }

  /** The sort keys the user-vacation query matches, in the ascending order the store returns them. */
  function QueryKeys(t: Table, userId: string): (ks: seq<string>)
    ensures forall sk :: sk in ks <==> (UserPk(userId), sk) in t && StartsWith(sk, VACATION)
    ensures forall i, j :: 0 <= i < j < |ks| ==> Below(ks[i], ks[j]) && ks[i] != ks[j]
  {
    var keys := set k | k in t && IsVacationKeyOf(k, userId) :: k.1;
    Ordered(keys)
  }

  /** get_user_vacations_from_db: the matched items, in sort-key order. */
  function GetUserVacations(t: Table, userId: string): (r: seq<Item>)
    ensures |r| == |QueryKeys(t, userId)|
    ensures forall i :: 0 <= i < |r| ==>
      (UserPk(userId), QueryKeys(t, userId)[i]) in t && r[i] == t[(UserPk(userId), QueryKeys(t, userId)[i])]
  {
    var ks := QueryKeys(t, userId);
    seq(|ks|, i requires 0 <= i < |ks| => t[(UserPk(userId), ks[i])])
  }

  /** Every item of the table the query matches is among the query's results. */
  lemma QueryCoversVacations(t: Table, userId: string, k: Key)
    requires k in t && IsVacationKeyOf(k, userId)
    ensures exists i :: 0 <= i < |GetUserVacations(t, userId)| && GetUserVacations(t, userId)[i] == t[k]
  {
    var ks := QueryKeys(t, userId);
    assert k.1 in ks;
    var i :| 0 <= i < |ks| && ks[i] == k.1;
    assert (UserPk(userId), ks[i]) == k;
    assert GetUserVacations(t, userId)[i] == t[k];
  }

  /** get_vacation_from_db: `response["Item"]` raises when the key is absent. */
  function GetVacation(t: Table, userId: string, vacationId: string): (r: Result<Item, Exception>)
    ensures r.Success? <==> VacationKey(userId, vacationId) in t
    ensures r.Success? ==> r.value == t[VacationKey(userId, vacationId)]
    ensures r.Failure? ==> r.error.KeyError?
  {
    var k := VacationKey(userId, vacationId);
    if k in t then Success(t[k]) else Failure(KeyError("Item"))
  }

  /** Reading a user back after saving it gives exactly the saved record. */
  lemma GetUserAfterSave(t: Table, userId: string, username: string)
    ensures GetUser(SaveUser(t, userId, username), userId) == Some(UserItem(userId, username))
  {
  }

  /** Saving a user leaves every other user's record as it was. */
  lemma GetUserAfterOtherSave(t: Table, userId: string, username: string, other: string)
    requires other != userId
    ensures GetUser(SaveUser(t, userId, username), other) == GetUser(t, other)
  {
    if UserKey(other) == UserKey(userId) {
      GenerateKeyInjective(USER, other, userId);
    }
  }

  datatype Saved = Saved(table: Table, result: Result<(), Exception>)

  /**
   * save_vacation_to_db: upsert the user, read the user's vacations, validate,
   * then put the new vacation under the given (freshly generated) id.
   */
  function SaveVacation(t: Table, userId: string, username: string, start: Day, end: Day,
                        status: string, vacationId: string): (r: Saved)
    ensures r.result.Failure? ==> r.table == SaveUser(t, userId, username)
    ensures r.result.Success? ==>
      r.table == SaveUser(t, userId, username)[VacationKey(userId, vacationId) := VacationItem(userId, vacationId, username, start, end, status)]
    ensures start > end ==> r.result == Failure(ValidationError(StartAfterEnd))
    ensures r.result.Failure? ==> r.result.error.ValidationError? || r.result.error.KeyError?
  {
    var t1 := SaveUser(t, userId, username);
    var existing := GetUserVacations(t1, userId);
    match ValidateNewVacation(start, end, existing)
    case Failure(e) => Saved(t1, Failure(e))
    case Success(_) =>
      Saved(t1[VacationKey(userId, vacationId) := VacationItem(userId, vacationId, username, start, end, status)], Success(()))
  }

  /** The single-tenant layout: a user record's two keys coincide, and a vacation sits in its user's partition. */
  lemma KeyLayout(userId: string, vacationId: string)
    ensures UserKey(userId) == ("USER#" + userId, "USER#" + userId)
    ensures VacationKey(userId, vacationId) == ("USER#" + userId, "VACATION#" + vacationId)
    ensures VacationKey(userId, vacationId).0 == UserKey(userId).0
    ensures VacationKey(userId, vacationId) != UserKey(userId)
  {
    assert USER + "#" == "USER#" && VACATION + "#" == "VACATION#";
    assert USER + "#" + userId == "USER#" + userId;
    assert VACATION + "#" + vacationId == "VACATION#" + vacationId;
    assert VacationKey(userId, vacationId).1[0] != UserKey(userId).1[0];
  }

  /** The user record's key is never matched by the vacation query. */
  lemma UserKeyIsNotVacationKey(userId: string, other: string)
    ensures !IsVacationKeyOf(UserKey(userId), other)
  {
    assert UserKey(userId).1[0] != VACATION[0];
  }

  /** Vacation keys of one user and entity keys of distinct names never collide. */
  lemma GenerateKeyInjective(entity: string, a: string, b: string)
    requires GenerateKey(entity, a) == GenerateKey(entity, b)
    ensures a == b
  {
    var n := |entity| + 1;
    assert a == GenerateKey(entity, a)[n..];
    assert b == GenerateKey(entity, b)[n..];
  }

  lemma VacationKeyIsVacationKeyOf(userId: string, vacationId: string)
    ensures IsVacationKeyOf(VacationKey(userId, vacationId), userId)
    ensures forall other :: other != userId ==> !IsVacationKeyOf(VacationKey(userId, vacationId), other)
  {
    var sk := GenerateKey(VACATION, vacationId);
    assert sk[..|VACATION|] == VACATION;
    forall other | other != userId
      ensures !IsVacationKeyOf(VacationKey(userId, vacationId), other)
    {
      if UserPk(userId) == UserPk(other) {
        GenerateKeyInjective(USER, userId, other);
      }
    }
  }

  /**
   * A successful save conflicts with none of the user's dated vacations, and the
   * save succeeds when the range is ordered and meets none of them (all dated).
   */
  lemma {:induction false} SaveVacationAgainstTable(t: Table, userId: string, username: string, start: Day, end: Day,
                                                    status: string, vacationId: string)
    ensures var r := SaveVacation(t, userId, username, start, end, status, vacationId);
      r.result.Success? ==>
        start <= end &&
        forall k :: k in t && IsVacationKeyOf(k, userId) ==> Dated(t[k]) && !ConflictsWith(t[k], start, end)
    ensures var r := SaveVacation(t, userId, username, start, end, status, vacationId);
      start <= end &&
      (forall k :: k in t && IsVacationKeyOf(k, userId) ==> Dated(t[k]) && !ConflictsWith(t[k], start, end))
      ==> r.result.Success?
  {
    var t1 := SaveUser(t, userId, username);
    var existing := GetUserVacations(t1, userId);
    UserKeyIsNotVacationKey(userId, userId);
    forall k | k in t1 && IsVacationKeyOf(k, userId)
      ensures k in t && t1[k] == t[k]
    {
    }
    var r := SaveVacation(t, userId, username, start, end, status, vacationId);
    if r.result.Success? {
      forall k | k in t && IsVacationKeyOf(k, userId)
        ensures Dated(t[k]) && !ConflictsWith(t[k], start, end)
      {
        assert k in t1 && t1[k] == t[k];
        QueryCoversVacations(t1, userId, k);
      }
    }
    if start <= end && (forall k :: k in t && IsVacationKeyOf(k, userId) ==> Dated(t[k]) && !ConflictsWith(t[k], start, end)) {
      var ks := QueryKeys(t1, userId);
      forall i | 0 <= i < |existing|
        ensures Dated(existing[i]) && !ConflictsWith(existing[i], start, end)
      {
        var k := (UserPk(userId), ks[i]);
        assert k in t1 && existing[i] == t1[k];
        assert IsVacationKeyOf(k, userId);
      }
    }
  }

  /** Sequential saves keep every user's vacations pairwise disjoint. */
  lemma {:induction false} SaveVacationPreservesDisjoint(t: Table, userId: string, username: string, start: Day, end: Day,
                                                         status: string, vacationId: string, owner: string)
    requires VacationsDisjoint(t, owner)
    ensures VacationsDisjoint(SaveVacation(t, userId, username, start, end, status, vacationId).table, owner)
  {
    var r := SaveVacation(t, userId, username, start, end, status, vacationId);
    var t1 := SaveUser(t, userId, username);
    UserKeyIsNotVacationKey(userId, owner);
    assert VacationsDisjoint(t1, owner);
    if r.result.Success? {
      var vk := VacationKey(userId, vacationId);
      var item := VacationItem(userId, vacationId, username, start, end, status);
      VacationKeyIsVacationKeyOf(userId, vacationId);
      SaveVacationAgainstTable(t, userId, username, start, end, status, vacationId);
      forall k1, k2 | k1 in r.table && k2 in r.table && k1 != k2 && IsVacationKeyOf(k1, owner) && IsVacationKeyOf(k2, owner)
          && Dated(r.table[k1]) && Dated(r.table[k2])
        ensures !Overlaps(r.table[k1].start.value, r.table[k1].end.value, r.table[k2].start.value, r.table[k2].end.value)
      {
        if k1 == vk {
          assert owner == userId;
          assert k2 in t && r.table[k2] == t[k2];
        } else if k2 == vk {
          assert owner == userId;
          assert k1 in t && r.table[k1] == t[k1];
        } else {
          assert r.table[k1] == t1[k1] && r.table[k2] == t1[k2];
        }
      }
    }
  }

  /** update_vacation_status: PUT of one attribute; on an absent key the store creates an item holding only it. */
  function UpdateVacationStatus(t: Table, userId: string, vacationId: string, status: string): (r: Table)
    ensures r.Keys == t.Keys + {VacationKey(userId, vacationId)}
    ensures r[VacationKey(userId, vacationId)].status == Some(status)
    ensures VacationKey(userId, vacationId) in t ==>
      r[VacationKey(userId, vacationId)] == t[VacationKey(userId, vacationId)].(status := Some(status))
    ensures VacationKey(userId, vacationId) !in t ==> !Dated(r[VacationKey(userId, vacationId)])
    ensures VacationKey(userId, vacationId) !in t ==>
      r[VacationKey(userId, vacationId)] == Item(None, None, None, None, None, Some(status))
    ensures forall k :: k in t && k != VacationKey(userId, vacationId) ==> r[k] == t[k]
  {
    var k := VacationKey(userId, vacationId);
    var item := if k in t then t[k] else Item(None, None, None, None, None, None);
    t[k := item.(status := Some(status))]
  }

  /** delete_vacation_from_db: removes that key only; deleting an absent key changes nothing. */
  function DeleteVacation(t: Table, userId: string, vacationId: string): (r: Table)
    ensures r.Keys == t.Keys - {VacationKey(userId, vacationId)}
    ensures forall k :: k in r ==> r[k] == t[k]
    ensures VacationKey(userId, vacationId) !in t ==> r == t
  {
    t - {VacationKey(userId, vacationId)}
  }

  /** A vacation that saved successfully reads back as the item written. */
  lemma GetVacationAfterSave(t: Table, userId: string, username: string, start: Day, end: Day,
                             status: string, vacationId: string)
    requires SaveVacation(t, userId, username, start, end, status, vacationId).result.Success?
    ensures GetVacation(SaveVacation(t, userId, username, start, end, status, vacationId).table, userId, vacationId)
      == Success(VacationItem(userId, vacationId, username, start, end, status))
  {
  }

  /** After a delete, reading the vacation fails with KeyError; other vacations read as before. */
  lemma GetVacationAfterDelete(t: Table, userId: string, vacationId: string, otherUser: string, otherVacation: string)
    requires VacationKey(otherUser, otherVacation) != VacationKey(userId, vacationId)
    ensures GetVacation(DeleteVacation(t, userId, vacationId), userId, vacationId).Failure?
    ensures GetVacation(DeleteVacation(t, userId, vacationId), userId, vacationId).error.KeyError?
    ensures GetVacation(DeleteVacation(t, userId, vacationId), otherUser, otherVacation) == GetVacation(t, otherUser, otherVacation)
  {
  }

  /** After a status update the vacation reads back with that status, its other attributes unchanged. */
  lemma GetVacationAfterUpdate(t: Table, userId: string, vacationId: string, status: string)
    requires GetVacation(t, userId, vacationId).Success?
    ensures GetVacation(UpdateVacationStatus(t, userId, vacationId, status), userId, vacationId)
      == Success(GetVacation(t, userId, vacationId).value.(status := Some(status)))
  {
  }

  /** A status change never moves dates, so it keeps every user's vacations disjoint. */
  lemma UpdateVacationStatusPreservesDisjoint(t: Table, userId: string, vacationId: string, status: string, owner: string)
    requires VacationsDisjoint(t, owner)
    ensures VacationsDisjoint(UpdateVacationStatus(t, userId, vacationId, status), owner)
  {
    var r := UpdateVacationStatus(t, userId, vacationId, status);
    var vk := VacationKey(userId, vacationId);
    forall k | k in r && Dated(r[k])
      ensures k in t && Dated(t[k]) && r[k].start == t[k].start && r[k].end == t[k].end
    {
    }
  }

  lemma DeleteVacationPreservesDisjoint(t: Table, userId: string, vacationId: string, owner: string)
    requires VacationsDisjoint(t, owner)
    ensures VacationsDisjoint(DeleteVacation(t, userId, vacationId), owner)
  {
  }
}
