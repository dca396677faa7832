/**
 * The ticket views' logic (views.py): the audit-log writer `update_history`
 * and the ticket list's `get_queryset`, which reads sort and filter choices
 * from the POST body, saves them as a named view, reloads or deletes saved
 * views, and falls back to a default one.
 *
 * The database is a `Database` object holding the History rows and the saved
 * views. The query the list view builds is returned as a value (`Query`),
 * never run. JSON encoding and decoding and whether the ORM accepts a filter
 * or an ordering are parameters (`Orm`).
 */
module Views {
  import opened Wrappers
  import opened PyStr
  import opened QueryDict
  import opened Models
  import opened SavedViews

  /** The model name the ticket list files its saved views under. */
  const TicketModelName: string := "libtekticket.ticket"

  /** The rows the views write: the History log and the saved views. */
  class Database {
    var history: seq<History>
    var vistas: seq<Vista>

    /** `get_or_create` on a saved view's key never meets two rows. */
    ghost predicate Valid()
      reads this
    {
      UniqueKeys(vistas)
    }

    constructor ()
      ensures Valid() && history == [] && vistas == []
    {
      history := [];
      vistas := [];
    }

    /** `History.objects.create(...)`: History is append-only. */
    method CreateHistory(h: History)
      modifies this
      ensures history == old(history) + [h] && vistas == old(vistas)
    {
      history := history + [h];
    }

    /** `Vista.objects.get_or_create(user=..., model_name=..., name=...)`. */
    method VistaGetOrCreate(key: VistaKey) returns (i: nat)
      requires Valid()
      modifies this
      ensures Valid() && history == old(history)
      ensures (vistas, i) == GetOrCreate(old(vistas), key)
    {
      var r := GetOrCreate(vistas, key);
      vistas, i := r.0, r.1;
    }

    /** `vista.save()` after changing the view's stored strings. */
    method VistaSave(i: nat, v: Vista)
      requires Valid() && i < |vistas| && KeyOf(v) == KeyOf(vistas[i])
      modifies this
      ensures Valid() && history == old(history)
      ensures vistas == old(vistas)[i := v]
    {
      vistas := vistas[i := v];
    }

    /** `Vista.objects.filter(user=..., model_name=..., name=...).delete()`. */
    method VistaFilterDelete(key: VistaKey)
      requires Valid()
      modifies this
      ensures Valid() && history == old(history)
      ensures vistas == RemoveKey(old(vistas), key)
    {
      vistas := RemoveKey(vistas, key);
    }

    /** `Vista.objects.filter(...).last()`. */
    method VistaLast(lookup: Lookup) returns (r: Option<nat>)
      ensures r.Some? ==> r.value < |vistas| && Matches(vistas[r.value], lookup)
      ensures r == LastMatching(vistas, lookup)
    {
      r := LastMatching(vistas, lookup);
    }

    /** `vista.delete()`. */
    method VistaDelete(i: nat)
      requires Valid() && i < |vistas|
      modifies this
      ensures Valid() && history == old(history)
      ensures vistas == DeleteAt(old(vistas), i)
    {
      vistas := DeleteAt(vistas, i);
    }
  }

  // ---------------------------------------------------------------------
  // The audit-log writer
  // ---------------------------------------------------------------------

  /** What a bound, validated Django form shows `update_history`. */
  datatype Form<V> = Form(changedData: seq<string>, initial: map<string, V>, cleanedData: map<string, V>)

  /** The History row written for one changed field; `str` is Python's `str()` on a field value. */
  function HistoryRow<V>(form: Form<V>, str: V -> string, modelname: string, objectid: Option<int>,
                         user: UserId, now: Timestamp, fieldname: string): (h: History)
    requires fieldname in form.cleanedData
  {
    History(now, modelname, objectid, fieldname,
            if fieldname in form.initial then SingletonTuple(str(form.initial[fieldname])) else NoOldValue,
            str(form.cleanedData[fieldname]),
            Some(user))
  }

  /** The rows written for the changed fields `fields`, in order. */
  function HistoryRows<V>(form: Form<V>, str: V -> string, modelname: string, objectid: Option<int>,
                          user: UserId, now: Timestamp, fields: seq<string>): (rows: seq<History>)
    requires forall f :: f in fields ==> f in form.cleanedData
  {
    if |fields| == 0 then []
    else HistoryRows(form, str, modelname, objectid, user, now, fields[..|fields| - 1])
         + [HistoryRow(form, str, modelname, objectid, user, now, fields[|fields| - 1])]
  }

  /**
   * `update_history(form, modelname, object, user)`: one History row per
   * changed field, appended in `changed_data` order; `objectid` is
   * `object.pk` and `now` the time each row is stamped with.
   */
  method UpdateHistory<V>(db: Database, form: Form<V>, str: V -> string, modelname: string,
                          objectid: Option<int>, user: UserId, now: Timestamp)
    requires forall f :: f in form.changedData ==> f in form.cleanedData
    modifies db
    ensures db.history == old(db.history) + HistoryRows(form, str, modelname, objectid, user, now, form.changedData)
    ensures db.vistas == old(db.vistas)
  {
    for k := 0 to |form.changedData|
      invariant db.history == old(db.history) + HistoryRows(form, str, modelname, objectid, user, now, form.changedData[..k])
      invariant db.vistas == old(db.vistas)
    {
      var fieldname := form.changedData[k];
      var oldValue: OldValue;
      if fieldname in form.initial {
        oldValue := SingletonTuple(str(form.initial[fieldname]));
      } else {
        oldValue := NoOldValue;
      }
      db.CreateHistory(History(now, modelname, objectid, fieldname, oldValue,
                               str(form.cleanedData[fieldname]), Some(user)));
      assert form.changedData[..k + 1][..k] == form.changedData[..k];
    }
    assert form.changedData[..|form.changedData|] == form.changedData;
  }

  // ---------------------------------------------------------------------
  // The orderable fields of the ticket list
  // ---------------------------------------------------------------------

  /** One entry of `order_by_fields`: a value the sort selectors may post, and its label. */
  datatype OrderField = OrderField(name: string, labelText: string)

  /** The ticket fields the list can be sorted by. */
  const OrderByFieldNames: seq<string> := ["item", "urgency"]

  /** `verbose_name` of an orderable field: `urgency` declares "Urgency", `item` defaults to its name. */
  function VerboseName(fieldname: string): string
  {
    if fieldname == "urgency" then "Urgency" else fieldname
  }

  function IsLetter(c: char): bool
  {
    'a' <= c <= 'z' || 'A' <= c <= 'Z'
  }

  function ToUpper(c: char): char
  {
    if 'a' <= c <= 'z' then (c as int - 32) as char else c
  }

  function ToLower(c: char): char
  {
    if 'A' <= c <= 'Z' then (c as int + 32) as char else c
  }

  /** Python's `s.title()` over ASCII letters: a letter after a non-letter is upper-cased, any other lower-cased. */
  function Title(s: string, atWordStart: bool := true): (r: string)
    ensures |r| == |s|
  {
    if |s| == 0 then ""
    else
      var c := s[0];
      [if !IsLetter(c) then c else if atWordStart then ToUpper(c) else ToLower(c)]
      + Title(s[1..], !IsLetter(c))
  }

  /** `order_by_fields` for `fieldnames`: each field ascending, then descending. */
  function OrderFields(fieldnames: seq<string>): (r: seq<OrderField>)
    ensures |r| == 2 * |fieldnames|
    ensures forall k :: 0 <= k < |fieldnames| ==>
              r[2 * k].name == fieldnames[k] && r[2 * k + 1].name == "-" + fieldnames[k]
  {
    if |fieldnames| == 0 then []
    else
      var f := fieldnames[|fieldnames| - 1];
      var caption := Title(VerboseName(f));
      OrderFields(fieldnames[..|fieldnames| - 1]) + [OrderField(f, caption), OrderField("-" + f, caption + " reverse")]
  }

  /** The class-level loop that builds `TicketList.order_by_fields`. */
  method BuildOrderByFields() returns (orderByFields: seq<OrderField>)
    ensures orderByFields == OrderFields(OrderByFieldNames)
  {
    orderByFields := [];
    for k := 0 to |OrderByFieldNames|
      invariant orderByFields == OrderFields(OrderByFieldNames[..k])
    {
      var fieldname := OrderByFieldNames[k];
      var caption := Title(VerboseName(fieldname));
      orderByFields := orderByFields + [OrderField(fieldname, caption)];
      orderByFields := orderByFields + [OrderField("-" + fieldname, caption + " reverse")];
      assert OrderByFieldNames[..k + 1][..k] == OrderByFieldNames[..k];
    }
    assert OrderByFieldNames[..|OrderByFieldNames|] == OrderByFieldNames;
  }

  function Names(fields: seq<OrderField>): (r: seq<string>)
    ensures |r| == |fields| && forall k :: 0 <= k < |fields| ==> r[k] == fields[k].name
  {
    seq(|fields|, k requires 0 <= k < |fields| => fields[k].name)
  }

  // ---------------------------------------------------------------------
  // Sort choices
  // ---------------------------------------------------------------------

  /** The number of sort selectors the list form posts. */
  const SlotCount: nat := 3

  /** `'order_by_{}'.format(i)`. */
  function SlotKey(i: nat): string
  {
    "order_by_" + NatToString(i)
  }

  /** The entries of `names` equal to `v`, in order. */
  function Matching(v: string, names: seq<string>): (r: seq<string>)
    ensures |r| <= |names|
    ensures forall x :: x in r ==> x == v
    ensures r == [] <==> v !in names
  {
    if |names| == 0 then []
    else Matching(v, names[..|names| - 1]) + (if names[|names| - 1] == v then [v] else [])
  }

  /** What the inner loop appends for sort selector `i`. */
  function SlotPick(post: Post, names: seq<string>, i: nat): seq<string>
  {
    match Get(post, SlotKey(i))
    case None => []
    case Some(v) => Matching(v, names)
  }

  /** The sort list after the first `n` selectors. */
  function SortSpec(post: Post, names: seq<string>, n: nat): seq<string>
  {
    if n == 0 then [] else SortSpec(post, names, n - 1) + SlotPick(post, names, n - 1)
  }

  lemma MatchingStep(v: string, names: seq<string>, j: nat)
    requires j < |names|
    ensures Matching(v, names[..j + 1]) == Matching(v, names[..j]) + (if names[j] == v then [v] else [])
  {
    assert names[..j + 1][..j] == names[..j];
  }

  /** The inner loop for one sort selector: the `order_by_fields` names equal to the posted value. */
  method MatchOrderField(posted: string, orderByFields: seq<OrderField>) returns (matched: seq<string>)
    ensures matched == Matching(posted, Names(orderByFields))
  {
    var names := Names(orderByFields);
    matched := [];
    for j := 0 to |orderByFields|
      invariant matched == Matching(posted, names[..j])
    {
      MatchingStep(posted, names, j);
      if posted == orderByFields[j].name {
        matched := matched + [orderByFields[j].name];
      }
    }
    assert names[..|orderByFields|] == names;
  }

  /** The loops of `get_queryset` that read the sort selectors against `order_by_fields`. */
  method ParseOrderBy(post: Post, orderByFields: seq<OrderField>) returns (orderBy: seq<string>)
    ensures orderBy == SortSpec(post, Names(orderByFields), SlotCount)
  {
    orderBy := [];
    for i := 0 to SlotCount
      invariant orderBy == SortSpec(post, Names(orderByFields), i)
    {
      var key := SlotKey(i);
      if Has(post, key) {
        var matched := MatchOrderField(Get(post, key).value, orderByFields);
        orderBy := orderBy + matched;
      }
    }
  }

  // ---------------------------------------------------------------------
  // Filter choices
  // ---------------------------------------------------------------------

  /** A filter condition: `<field>__in=[...]`, or `<field>=None`. */
  datatype FilterValue = InList(values: seq<string>) | IsNull

  /** `filter_object`: the keyword arguments for `queryset.filter(**...)`. */
  type FilterMap = map<string, FilterValue>

  /** The fields the list can be filtered by. */
  const FilterFields: seq<string> := ["mmodel", "mmodel__category", "condition", "role"]

  function InKey(fieldname: string): string
  {
    "filter__" + fieldname + "__in"
  }

  function NoneKey(fieldname: string): string
  {
    "filter__" + fieldname + "__none"
  }

  /** The entries that are all decimal digits, in order. */
  function Decimals(values: seq<string>): (r: seq<string>)
    ensures forall x :: x in r ==> x in values && IsDecimal(x)
    ensures r == [] <==> forall k :: 0 <= k < |values| ==> !IsDecimal(values[k])
  {
    if |values| == 0 then []
    else Decimals(values[..|values| - 1]) + (if IsDecimal(values[|values| - 1]) then [values[|values| - 1]] else [])
  }

  /** The list filter on `fieldname` is taken: posted non-empty, with at least one decimal entry. */
  predicate ListFilterPosted(post: Post, fieldname: string)
  {
    HasNonEmpty(post, InKey(fieldname)) && Decimals(GetList(post, InKey(fieldname))) != []
  }

  /** One turn of the filter loop. */
  function FilterStep(post: Post, m: FilterMap, fieldname: string): FilterMap
  {
    var withList := if ListFilterPosted(post, fieldname)
                    then m[fieldname + "__in" := InList(GetList(post, InKey(fieldname)))]
                    else m;
    if Has(post, NoneKey(fieldname)) then withList[fieldname := IsNull] else withList
  }

  /** `filter_object` after the loop over `fieldnames`. */
  function FilterSpec(post: Post, fieldnames: seq<string>): FilterMap
  {
    if |fieldnames| == 0 then map[]
    else FilterStep(post, FilterSpec(post, fieldnames[..|fieldnames| - 1]), fieldnames[|fieldnames| - 1])
  }

  lemma DecimalsStep(values: seq<string>, j: nat)
    requires j < |values|
    ensures Decimals(values[..j + 1]) == Decimals(values[..j]) + (if IsDecimal(values[j]) then [values[j]] else [])
  {
    assert values[..j + 1][..j] == values[..j];
  }

  /** The inner loop: the posted values that are all decimal digits. */
  method DecimalEntries(postfields: seq<string>) returns (fieldlist: seq<string>)
    ensures fieldlist == Decimals(postfields)
  {
    fieldlist := [];
    for j := 0 to |postfields|
      invariant fieldlist == Decimals(postfields[..j])
    {
      DecimalsStep(postfields, j);
      if IsDecimal(postfields[j]) {
        fieldlist := fieldlist + [postfields[j]];
      }
    }
    assert postfields[..|postfields|] == postfields;
  }

  /** One turn of the filter loop, for `fieldname`. */
  method AddFieldFilters(post: Post, filterObject: FilterMap, fieldname: string) returns (r: FilterMap)
    ensures r == FilterStep(post, filterObject, fieldname)
  {
    r := filterObject;
    var filterfieldname := InKey(fieldname);
    if Has(post, filterfieldname) && |Get(post, filterfieldname).value| > 0 {
      var postfields := GetList(post, filterfieldname);
      var fieldlist := DecimalEntries(postfields);
      if fieldlist != [] {
        r := r[fieldname + "__in" := InList(postfields)];
      }
    }
    var filterfieldnone := NoneKey(fieldname);
    if Has(post, filterfieldnone) {
      r := r[fieldname := IsNull];
    }
  }

  /** The loop of `get_queryset` that builds `filter_object`. */
  method BuildFilterObject(post: Post) returns (filterObject: FilterMap)
    ensures filterObject == FilterSpec(post, FilterFields)
  {
    filterObject := map[];
    for k := 0 to |FilterFields|
      invariant filterObject == FilterSpec(post, FilterFields[..k])
    {
      filterObject := AddFieldFilters(post, filterObject, FilterFields[k]);
      assert FilterFields[..k + 1][..k] == FilterFields[..k];
    }
    assert FilterFields[..|FilterFields|] == FilterFields;
  }

  // ---------------------------------------------------------------------
  // The list query and the saved views
  // ---------------------------------------------------------------------

  /** How the queryset is ordered: not at all, `order_by(*names)`, or `order_by(names)` with the list as one argument. */
  datatype Ordering = Unordered | OrderBy(fields: seq<string>) | OrderByOneList(fields: seq<string>)

  /** The queryset `get_queryset` returns: every ticket, or a filtered and ordered selection. */
  datatype Query = AllTickets | Select(filter: FilterMap, ordering: Ordering)

  /** A queryset was returned, or building it raised an exception nothing catches. */
  datatype Outcome = Returned(query: Query) | Raised

  /**
   * The collaborators `get_queryset` relies on: `json.dumps`, `json.loads`
   * (None standing for `JSONDecodeError`), and whether the ORM accepts a
   * filter, an `order_by(*names)` and an `order_by(names)` without raising.
   */
  datatype Orm = Orm(
    encode: FilterMap -> string,
    decode: string -> Option<FilterMap>,
    filterAccepted: FilterMap -> bool,
    orderAccepted: seq<string> -> bool,
    listOrderAccepted: seq<string> -> bool)

  /** Everything one call of `get_queryset` decides: the outcome, the saved views, and the view's `filter_object` and `order_by`. */
  datatype Effect = Effect(outcome: Outcome, vistas: seq<Vista>, filterObject: FilterMap, orderBy: seq<string>)

  /** `vista__name` when posted non-empty, else the empty name. */
  function VistaName(post: Post): string
  {
    if HasNonEmpty(post, "vista__name") then Get(post, "vista__name").value else ""
  }

  /** The branch for a submitted query (`query_submitted` in the POST body). */
  function SubmittedQuery(post: Post, user: UserId, names: seq<string>, orm: Orm,
                          vs: seq<Vista>, filterObject: FilterMap, orderBy: seq<string>): Effect
  {
    var order := SortSpec(post, names, SlotCount);
    var filter := FilterSpec(post, FilterFields);
    if filter == map[] && order == [] then Effect(Returned(AllTickets), vs, filterObject, orderBy)
    else SavedQuery(VistaKey(user, TicketModelName, VistaName(post)), orm, vs, filterObject, orderBy, filter, order)
  }

  /** Saving a non-empty query under `key` and building its queryset. */
  function SavedQuery(key: VistaKey, orm: Orm, vs: seq<Vista>, filterObject: FilterMap, orderBy: seq<string>,
                      filter: FilterMap, order: seq<string>): Effect
  {
    var (vs1, i) := GetOrCreate(vs, key);
    var filterObject1 := if filter != map[] then filter else filterObject;
    var orderBy1 := if order != [] then order else orderBy;
    if filter != map[] && !orm.filterAccepted(filter) then Effect(Raised, vs1, filterObject1, orderBy)
    else if order != [] && !orm.orderAccepted(order) then Effect(Raised, vs1, filterObject1, orderBy1)
    else
      var saved := vs1[i].(filterstring := if filter != map[] then orm.encode(filter) else vs1[i].filterstring,
                           sortstring := if order != [] then Join(order, ',') else vs1[i].sortstring);
      Effect(Returned(Select(filter, if order != [] then OrderBy(order) else Unordered)),
             vs1[i := saved], filterObject1, orderBy1)
  }

  /** The branch that loads a saved view by name (`get_vista`). */
  function LoadedVista(post: Post, user: UserId, orm: Orm,
                       vs: seq<Vista>, filterObject: FilterMap, orderBy: seq<string>): Effect
  {
    var (vs1, i) := GetOrCreate(vs, VistaKey(user, TicketModelName, VistaName(post)));
    match orm.decode(vs1[i].filterstring)
    case None => Effect(Returned(AllTickets), vs1, filterObject, orderBy)
    case Some(f) =>
      var order := Split(vs1[i].sortstring, ',');
      if orm.filterAccepted(f) && orm.orderAccepted(order)
      then Effect(Returned(Select(f, OrderBy(order))), vs1, f, orderBy)
      else Effect(Raised, vs1, filterObject, orderBy)
  }

  /**
   * The view the fallback applies: the user's last default view (of any
   * model), else the user's last view, else a new blank one.
   */
  function FallbackVista(vs: seq<Vista>, user: UserId): (r: (seq<Vista>, nat))
    ensures r.1 < |r.0| && r.0[r.1].user == user
  {
    match LastMatching(vs, DefaultOf(user))
    case Some(i) => (vs, i)
    case None =>
      match LastMatching(vs, OwnedBy(user))
      case Some(i) => (vs, i)
      case None => (vs + [Blank(VistaKey(user, DefaultModelName, DefaultName))], |vs|)
  }

  /**
   * The branch for `delete_vista`: delete the named view if a name was
   * posted, then apply the fallback view; a view that fails to decode or
   * that the ORM rejects is deleted and every ticket is listed.
   */
  function DeletedVista(post: Post, user: UserId, orm: Orm,
                        vs: seq<Vista>, filterObject: FilterMap, orderBy: seq<string>): Effect
  {
    var vs1 := if HasNonEmpty(post, "vista__name")
               then RemoveKey(vs, VistaKey(user, TicketModelName, VistaName(post)))
               else vs;
    var (vs2, i) := FallbackVista(vs1, user);
    match orm.decode(vs2[i].filterstring)
    case None => Effect(Returned(AllTickets), DeleteAt(vs2, i), filterObject, orderBy)
    case Some(f) =>
      var order := Split(vs2[i].sortstring, ',');
      if orm.filterAccepted(f) && orm.listOrderAccepted(order)
      then Effect(Returned(Select(f, OrderByOneList(order))), vs2, f, order)
      else Effect(Returned(AllTickets), DeleteAt(vs2, i), f, order)
  }

  /** `TicketList.get_queryset` for one request. */
  function Respond(post: Post, user: UserId, names: seq<string>, orm: Orm,
                   vs: seq<Vista>, filterObject: FilterMap, orderBy: seq<string>): Effect
  {
    if Has(post, "query_submitted") then SubmittedQuery(post, user, names, orm, vs, filterObject, orderBy)
    else if Has(post, "get_vista") then LoadedVista(post, user, orm, vs, filterObject, orderBy)
    else if Has(post, "delete_vista") then DeletedVista(post, user, orm, vs, filterObject, orderBy)
    else Effect(Returned(AllTickets), vs, filterObject, orderBy)
  }

  /** The ticket list view, one instance per request. */
  class TicketList {
    const db: Database
    const post: Post
    const user: UserId
    const orm: Orm
    const orderByFields: seq<OrderField>
    var filterObject: FilterMap
    var orderBy: seq<string>

    constructor (db: Database, post: Post, user: UserId, orm: Orm)
      ensures this.db == db && this.post == post && this.user == user && this.orm == orm
      ensures orderByFields == OrderFields(OrderByFieldNames)
      ensures filterObject == map[] && orderBy == []
    {
      var fields := BuildOrderByFields();
      this.db := db;
      this.post := post;
      this.user := user;
      this.orm := orm;
      orderByFields := fields;
      filterObject := map[];
      orderBy := [];
    }

    /** `get_queryset`: dispatch on the POST body. */
    method GetQueryset() returns (r: Outcome)
      requires db.Valid()
      modifies this, db
      ensures db.Valid() && db.history == old(db.history)
      ensures Effect(r, db.vistas, filterObject, orderBy)
              == Respond(post, user, Names(orderByFields), orm, old(db.vistas), old(filterObject), old(orderBy))
    {
      if Has(post, "query_submitted") {
        r := SubmitQuery();
      } else if Has(post, "get_vista") {
        r := LoadVista();
      } else if Has(post, "delete_vista") {
        r := DeleteVista();
      } else {
        r := Returned(AllTickets);
      }
    }

    method SubmitQuery() returns (r: Outcome)
      requires db.Valid()
      modifies this, db
      ensures db.Valid() && db.history == old(db.history)
      ensures Effect(r, db.vistas, filterObject, orderBy)
              == SubmittedQuery(post, user, Names(orderByFields), orm, old(db.vistas), old(filterObject), old(orderBy))
    {
      var order := ParseOrderBy(post, orderByFields);
      var filter := BuildFilterObject(post);
      var name := "";
      if Has(post, "vista__name") && |Get(post, "vista__name").value| > 0 {
        name := Get(post, "vista__name").value;
      }
      if filter != map[] || order != [] {
        r := SaveQuery(VistaKey(user, TicketModelName, name), filter, order);
      } else {
        r := Returned(AllTickets);
      }
    }

    /** Upserting the saved view for a non-empty query, then filtering and ordering by it. */
    method SaveQuery(key: VistaKey, filter: FilterMap, order: seq<string>) returns (r: Outcome)
      requires db.Valid()
      modifies this, db
      ensures db.Valid() && db.history == old(db.history)
      ensures Effect(r, db.vistas, filterObject, orderBy)
              == SavedQuery(key, orm, old(db.vistas), old(filterObject), old(orderBy), filter, order)
    {
      var i := db.VistaGetOrCreate(key);
      var vista := db.vistas[i];
      if filter != map[] {
        filterObject := filter;
        vista := vista.(filterstring := orm.encode(filter));
        if !orm.filterAccepted(filter) {
          return Raised;
        }
      }
      if order != [] {
        orderBy := order;
        vista := vista.(sortstring := Join(order, ','));
        if !orm.orderAccepted(order) {
          return Raised;
        }
      }
      db.VistaSave(i, vista);
      r := Returned(Select(filter, if order != [] then OrderBy(order) else Unordered));
    }

    method LoadVista() returns (r: Outcome)
      requires db.Valid()
      modifies this, db
      ensures db.Valid() && db.history == old(db.history)
      ensures Effect(r, db.vistas, filterObject, orderBy)
              == LoadedVista(post, user, orm, old(db.vistas), old(filterObject), old(orderBy))
    {
      var name := "";
      if Has(post, "vista__name") && |Get(post, "vista__name").value| > 0 {
        name := Get(post, "vista__name").value;
      }
      var i := db.VistaGetOrCreate(VistaKey(user, TicketModelName, name));
      var vista := db.vistas[i];
      var decoded := orm.decode(vista.filterstring);
      if decoded.None? {
        return Returned(AllTickets);
      }
      var order := Split(vista.sortstring, ',');
      if !(orm.filterAccepted(decoded.value) && orm.orderAccepted(order)) {
        return Raised;
      }
      filterObject := decoded.value;
      r := Returned(Select(decoded.value, OrderBy(order)));
    }

    /** The fallback lookup: the user's last default view, else their last view, else a new one. */
    method FallbackIndex() returns (i: nat)
      requires db.Valid()
      modifies db
      ensures db.Valid() && db.history == old(db.history)
      ensures (db.vistas, i) == FallbackVista(old(db.vistas), user)
    {
      var found := db.VistaLast(DefaultOf(user));
      if found.None? {
        found := db.VistaLast(OwnedBy(user));
      }
      if found.Some? {
        i := found.value;
      } else {
        // No row belongs to the user, so `get_or_create(user=user)` inserts a blank row.
        i := db.VistaGetOrCreate(VistaKey(user, DefaultModelName, DefaultName));
      }
    }

    method DeleteVista() returns (r: Outcome)
      requires db.Valid()
      modifies this, db
      ensures db.Valid() && db.history == old(db.history)
      ensures Effect(r, db.vistas, filterObject, orderBy)
              == DeletedVista(post, user, orm, old(db.vistas), old(filterObject), old(orderBy))
    {
      if Has(post, "vista__name") && |Get(post, "vista__name").value| > 0 {
        db.VistaFilterDelete(VistaKey(user, TicketModelName, Get(post, "vista__name").value));
      }
      ghost var afterDelete := db.vistas;
      var i := FallbackIndex();
      ghost var chosen := db.vistas;
      var vista := db.vistas[i];
      var decoded := orm.decode(vista.filterstring);
      if decoded.None? {
        db.VistaDelete(i);
        return Returned(AllTickets);
      }
      var order := Split(vista.sortstring, ',');
      filterObject := decoded.value;
      orderBy := order;
      if orm.filterAccepted(decoded.value) && orm.listOrderAccepted(order) {
        return Returned(Select(decoded.value, OrderByOneList(order)));
      }
      db.VistaDelete(i);
      r := Returned(AllTickets);
    }
  }
}
