/**
 * The ticket module's records (models.py): tickets with their five urgency
 * levels, technicians, and the History audit rows with their display string
 * and fixed listing order. Deleting a referenced row is modelled on a whole
 * database value, to state what `on_delete=SET_NULL` does to the rows that
 * refer to it.
 */
module Models {
  import opened Wrappers
  import opened PyStr

  type UserId = nat
  type ItemId = nat
  type TechnicianId = nat
  type TicketId = nat

  /** Seconds since an epoch; only the order of timestamps matters here. */
  type Timestamp = int

  /** The `urgency` column: only the values of `UrgencyChoices` are admitted. */
  type Urgency = u: int | 1 <= u <= 5 witness 1

  /** The `choices` of `Ticket.urgency`, value and label; 1 is the most urgent. */
  const UrgencyChoices: seq<(int, string)> := [
    (1, "Safety Hazard or Work Stoppage"),
    (2, ""),
    (3, "Important Issue"),
    (4, ""),
    (5, "Minor Issue or Suggestion")
  ]

  /** Choice validation of a submitted urgency: accepted exactly when it is one of the choices. */
  function CleanUrgency(n: int): (r: Option<Urgency>)
    ensures r.Some? <==> exists k :: 0 <= k < |UrgencyChoices| && UrgencyChoices[k].0 == n
    ensures r.Some? ==> r.value == n
  {
    if 1 <= n <= 5 then
      assert UrgencyChoices[n - 1].0 == n;
      Some(n)
    else None
  }

  datatype Technician = Technician(user: Option<UserId>, name: string)

  datatype Ticket = Ticket(
    item: Option<ItemId>,
    description: string,
    urgency: Urgency,
    submittedBy: Option<UserId>,
    technician: Option<TechnicianId>)

  /**
   * What `update_history` stores as the old value: nothing when the field had
   * no initial value, otherwise the one-element tuple `(str(initial),)` that
   * the trailing comma in the assignment builds, not the string itself.
   */
  datatype OldValue = NoOldValue | SingletonTuple(text: string)

  datatype History = History(
    when: Timestamp,
    modelname: string,
    objectid: Option<int>,
    fieldname: string,
    oldValue: OldValue,
    newValue: string,
    user: Option<UserId>)

  /** The new value as `__str__` shows it: at most 20 characters, long ones cut to 17 and "...". */
  function TruncateForDisplay(s: string): (r: string)
    ensures |r| <= 20
    ensures r == s <==> |s| <= 20
    ensures |s| > 20 ==> |r| == 20 && r[..17] == s[..17] && r[17..] == "..."
  {
    if |s| > 20 then s[..17] + "..." else s
  }

  /** `str(self.objectid)`, where a missing id prints as `None`. */
  function ObjectIdText(id: Option<int>): (r: string)
    ensures |r| > 0
    ensures id.None? ==> r == "None"
    ensures id.Some? ==> r == IntToString(id.value) && (id.value >= 0 <==> r[0] != '-')
  {
    match id
    case None => "None"
    case Some(n) => IntToString(n)
  }

  /**
   * The string `History.__str__` returns when the changed object cannot be
   * looked up. `"mdy".format(date)` has no placeholder, so the date is
   * dropped and the literal `mdy` opens the string.
   */
  function FallbackDisplay(h: History): (r: string)
    ensures |r| > 5 + |h.modelname| && r[..5] == "mdy: " && r[5..5 + |h.modelname|] == h.modelname
    ensures var tail := "] changed to \"" + TruncateForDisplay(h.newValue) + "\"";
            && |r| > |tail| && r[|r| - |tail|..] == tail
            && 5 + |h.modelname| <= |r| - |tail|
            && r[5 + |h.modelname|..|r| - |tail|] == ": " + ObjectIdText(h.objectid) + " [" + h.fieldname
  {
    var tail := "] changed to \"" + TruncateForDisplay(h.newValue) + "\"";
    var head := "mdy" + ": " + h.modelname;
    var middle := ": " + ObjectIdText(h.objectid) + " [" + h.fieldname;
    var r := head + ": " + ObjectIdText(h.objectid) + " [" + h.fieldname + tail;
    assert r == head + middle + tail;
    assert r[..|head|] == head;
    assert r[|head|..|r| - |tail|] == middle;
    assert head[..5] == "mdy: " && head[5..] == h.modelname;
    r
  }

  /** The fallback string shows neither the timestamp, the old value nor the user. */
  lemma FallbackDisplayIgnores(h: History, when: Timestamp, previous: OldValue, user: Option<UserId>)
    ensures FallbackDisplay(h.(when := when, oldValue := previous, user := user)) == FallbackDisplay(h)
  {
  }

  /** Ascending order of the nullable `objectid`; where NULL sorts depends on the database. */
  predicate ObjectIdLe(a: Option<int>, b: Option<int>, nullsFirst: bool)
  {
    match (a, b)
    case (None, None) => true
    case (None, Some(_)) => nullsFirst
    case (Some(_), None) => !nullsFirst
    case (Some(x), Some(y)) => x <= y
  }

  /** `Meta.ordering = ('-when', 'modelname', 'objectid')`: may `a` be listed before `b`? */
  predicate ListedBefore(a: History, b: History, nullsFirst: bool)
  {
    a.when > b.when
    || (a.when == b.when
        && ((a.modelname != b.modelname && StrLe(a.modelname, b.modelname))
            || (a.modelname == b.modelname && ObjectIdLe(a.objectid, b.objectid, nullsFirst))))
  }

  /** Any two History rows are comparable, and a newer row always comes first. */
  lemma ListedBeforeTotal(a: History, b: History, nullsFirst: bool)
    ensures ListedBefore(a, b, nullsFirst) || ListedBefore(b, a, nullsFirst)
    ensures a.when > b.when ==> ListedBefore(a, b, nullsFirst) && !ListedBefore(b, a, nullsFirst)
  {
    StrLeTotal(a.modelname, b.modelname);
  }

  lemma ListedBeforeTransitive(a: History, b: History, c: History, nullsFirst: bool)
    requires ListedBefore(a, b, nullsFirst) && ListedBefore(b, c, nullsFirst)
    ensures ListedBefore(a, c, nullsFirst)
  {
    if a.when == b.when == c.when {
      if StrLe(a.modelname, b.modelname) && StrLe(b.modelname, c.modelname) {
        StrLeTransitive(a.modelname, b.modelname, c.modelname);
        if a.modelname == c.modelname {
          StrLeAntisymmetric(a.modelname, b.modelname);
        }
      }
    }
  }

  /** Two rows that may each be listed before the other share their whole sort key. */
  lemma ListedBeforeTies(a: History, b: History, nullsFirst: bool)
    requires ListedBefore(a, b, nullsFirst) && ListedBefore(b, a, nullsFirst)
    ensures a.when == b.when && a.modelname == b.modelname && a.objectid == b.objectid
  {
    if a.modelname != b.modelname {
      StrLeAntisymmetric(a.modelname, b.modelname);
    }
  }

  /** The rows of the tables whose foreign keys use `on_delete=SET_NULL`. */
  datatype Db = Db(
    users: set<UserId>,
    items: set<ItemId>,
    technicians: map<TechnicianId, Technician>,
    tickets: map<TicketId, Ticket>,
    history: seq<History>)

  predicate RefOk<T>(r: Option<T>, present: set<T>)
  {
    r.Some? ==> r.value in present
  }

  /** Every foreign key names a row that exists. */
  predicate RefsIntact(db: Db)
  {
    && (forall k :: k in db.technicians ==> RefOk(db.technicians[k].user, db.users))
    && (forall t :: t in db.tickets ==>
          && RefOk(db.tickets[t].item, db.items)
          && RefOk(db.tickets[t].submittedBy, db.users)
          && RefOk(db.tickets[t].technician, db.technicians.Keys))
    && (forall i :: 0 <= i < |db.history| ==> RefOk(db.history[i].user, db.users))
  }

  function NullIf<T(==)>(r: Option<T>, gone: T): Option<T>
  {
    if r == Some(gone) then None else r
  }

  /** Deleting an item: every ticket about it survives with `item` set to NULL. */
  function DeleteItem(db: Db, i: ItemId): (r: Db)
    ensures r.items == db.items - {i}
    ensures r.tickets.Keys == db.tickets.Keys
    ensures forall t :: t in r.tickets ==>
              && r.tickets[t].item != Some(i)
              && (db.tickets[t].item == Some(i) ==> r.tickets[t].item == None)
              && (db.tickets[t].item != Some(i) ==> r.tickets[t] == db.tickets[t])
              && r.tickets[t] == db.tickets[t].(item := r.tickets[t].item)
    ensures r.users == db.users && r.technicians == db.technicians && r.history == db.history
  {
    db.(items := db.items - {i},
        tickets := map t | t in db.tickets :: db.tickets[t].(item := NullIf(db.tickets[t].item, i)))
  }

  /** Deleting a technician: tickets assigned to them survive, unassigned. */
  function DeleteTechnician(db: Db, k: TechnicianId): (r: Db)
    ensures r.technicians == db.technicians - {k}
    ensures r.tickets.Keys == db.tickets.Keys
    ensures forall t :: t in r.tickets ==>
              && r.tickets[t].technician != Some(k)
              && (db.tickets[t].technician == Some(k) ==> r.tickets[t].technician == None)
              && (db.tickets[t].technician != Some(k) ==> r.tickets[t] == db.tickets[t])
              && r.tickets[t] == db.tickets[t].(technician := r.tickets[t].technician)
    ensures r.users == db.users && r.items == db.items && r.history == db.history
  {
    db.(technicians := db.technicians - {k},
        tickets := map t | t in db.tickets :: db.tickets[t].(technician := NullIf(db.tickets[t].technician, k)))
  }

  /**
   * Deleting a user account: technicians, tickets and History rows that point
   * at it all survive with that reference set to NULL.
   */
  function DeleteUser(db: Db, u: UserId): (r: Db)
    ensures r.users == db.users - {u}
    ensures r.technicians.Keys == db.technicians.Keys && r.tickets.Keys == db.tickets.Keys
    ensures |r.history| == |db.history|
    ensures forall k :: k in r.technicians ==>
              r.technicians[k] == db.technicians[k].(user := NullIf(db.technicians[k].user, u))
    ensures forall t :: t in r.tickets ==>
              r.tickets[t] == db.tickets[t].(submittedBy := NullIf(db.tickets[t].submittedBy, u))
    ensures forall n :: 0 <= n < |r.history| ==>
              r.history[n] == db.history[n].(user := NullIf(db.history[n].user, u))
    ensures r.items == db.items
  {
    db.(users := db.users - {u},
        technicians := map k | k in db.technicians :: db.technicians[k].(user := NullIf(db.technicians[k].user, u)),
        tickets := map t | t in db.tickets :: db.tickets[t].(submittedBy := NullIf(db.tickets[t].submittedBy, u)),
        history := seq(|db.history|, n requires 0 <= n < |db.history| => db.history[n].(user := NullIf(db.history[n].user, u))))
  }

  /** SET_NULL never leaves a dangling reference behind. */
  lemma DeleteItemKeepsRefsIntact(db: Db, i: ItemId)
    requires RefsIntact(db)
    ensures RefsIntact(DeleteItem(db, i))
  {
  }

  lemma DeleteTechnicianKeepsRefsIntact(db: Db, k: TechnicianId)
    requires RefsIntact(db)
    ensures RefsIntact(DeleteTechnician(db, k))
  {
  }

  lemma DeleteUserKeepsRefsIntact(db: Db, u: UserId)
    requires RefsIntact(db)
    ensures RefsIntact(DeleteUser(db, u))
  {
  }
}
