/**
 * What the ticket views promise, stated over the specification functions of
 * module Views: one History row per changed field, the allow-lists the sort
 * and filter choices are held to, the sort string's round trip, and how a
 * request changes the saved views.
 */
module ViewsProperties {
  import opened Wrappers
  import opened PyStr
  import opened QueryDict
  import opened Models
  import opened SavedViews
  import opened Views

  // ---------------------------------------------------------------------
  // update_history
  // ---------------------------------------------------------------------

  /**
   * One row per changed field, in order, each carrying the model name, the
   * object id, the user, the field name, `str()` of the cleaned value, and
   * the wrapped `str()` of the initial value or no old value at all.
   */
  lemma {:induction false} HistoryRowsOnePerField<V>(form: Form<V>, str: V -> string, modelname: string,
                                                     objectid: Option<int>, user: UserId, now: Timestamp,
                                                     fields: seq<string>)
    requires forall f :: f in fields ==> f in form.cleanedData
    ensures var rows := HistoryRows(form, str, modelname, objectid, user, now, fields);
            && |rows| == |fields|
            && forall n :: 0 <= n < |fields| ==>
                 && rows[n].fieldname == fields[n]
                 && rows[n].modelname == modelname
                 && rows[n].objectid == objectid
                 && rows[n].user == Some(user)
                 && rows[n].when == now
                 && rows[n].newValue == str(form.cleanedData[fields[n]])
                 && (rows[n].oldValue == NoOldValue <==> fields[n] !in form.initial)
                 && (fields[n] in form.initial ==> rows[n].oldValue == SingletonTuple(str(form.initial[fields[n]])))
  {
    if |fields| > 0 {
      var prefix := fields[..|fields| - 1];
      assert forall f :: f in prefix ==> f in fields;
      HistoryRowsOnePerField(form, str, modelname, objectid, user, now, prefix);
    }
  }

  // ---------------------------------------------------------------------
  // Sort choices
  // ---------------------------------------------------------------------

  /** The values the sort selectors are held to. */
  const SortAllowList: seq<string> := ["item", "-item", "urgency", "-urgency"]

  /** `order_by_fields` is the four names of the allow-list, labelled from the fields' verbose names. */
  lemma OrderByFieldsAllowList()
    ensures Names(OrderFields(OrderByFieldNames)) == SortAllowList
    ensures var fs := OrderFields(OrderByFieldNames);
            fs[0].labelText == "Item" && fs[1].labelText == "Item reverse"
            && fs[2].labelText == "Urgency" && fs[3].labelText == "Urgency reverse"
  {
    OrderFieldsItem();
    TitleUrgency();
    assert OrderByFieldNames[..1] == ["item"];
    assert "-" + "urgency" == "-urgency";
    assert "Urgency" + " reverse" == "Urgency reverse";
    assert OrderFields(OrderByFieldNames) == [OrderField("item", "Item"), OrderField("-item", "Item reverse")]
             + [OrderField("urgency", "Urgency"), OrderField("-urgency", "Urgency reverse")];
  }

  lemma OrderFieldsItem()
    ensures OrderFields(["item"]) == [OrderField("item", "Item"), OrderField("-item", "Item reverse")]
  {
    TitleItem();
    assert ["item"][..0] == [];
    assert "-" + "item" == "-item";
    assert "Item" + " reverse" == "Item reverse";
  }

  lemma TitleItem()
    ensures Title(VerboseName("item")) == "Item"
  {
    assert Title("m", false) == "m";
    assert Title("em", false) == "em";
    assert Title("tem", false) == "tem";
  }

  lemma TitleUrgency()
    ensures Title(VerboseName("urgency")) == "Urgency"
  {
    assert Title("y", false) == "y";
    assert Title("cy", false) == "cy";
    assert Title("ncy", false) == "ncy";
    assert Title("ency", false) == "ency";
    assert Title("gency", false) == "gency";
    assert Title("rgency", false) == "rgency";
  }

  /** No allowed sort name contains the comma the sort string is joined with. */
  lemma AllowedHasNoComma(x: string)
    requires x in SortAllowList
    ensures ',' !in x
  {
    assert x == "item" || x == "-item" || x == "urgency" || x == "-urgency";
  }

  predicate Distinct(names: seq<string>)
  {
    forall i, j :: 0 <= i < j < |names| ==> names[i] != names[j]
  }

  /** Against distinct names, the inner loop appends the posted value once if it is allowed, else nothing. */
  lemma {:induction false} MatchingDistinct(v: string, names: seq<string>)
    requires Distinct(names)
    ensures Matching(v, names) == if v in names then [v] else []
  {
    if |names| > 0 {
      var prefix := names[..|names| - 1];
      assert Distinct(prefix);
      MatchingDistinct(v, prefix);
      assert names == prefix + [names[|names| - 1]];
      if names[|names| - 1] == v {
        assert v !in prefix by {
          forall k | 0 <= k < |prefix| ensures prefix[k] != v {
            assert names[k] != names[|names| - 1];
          }
        }
      }
    }
  }

  /** What selector `i` contributes: its posted value when that value is allowed. */
  function SlotValue(post: Post, names: seq<string>, i: nat): seq<string>
  {
    if Get(post, SlotKey(i)).Some? && Get(post, SlotKey(i)).value in names then [Get(post, SlotKey(i)).value] else []
  }

  lemma SlotPickDistinct(post: Post, names: seq<string>, i: nat)
    requires Distinct(names)
    ensures SlotPick(post, names, i) == SlotValue(post, names, i)
  {
    if Get(post, SlotKey(i)).Some? {
      MatchingDistinct(Get(post, SlotKey(i)).value, names);
    }
  }

  /**
   * The parsed sort list holds, in selector order 0, 1, 2, each selector's
   * posted value that is on the allow-list: at most three names, all allowed,
   * any other posted value dropped.
   */
  lemma SortChoices(post: Post)
    ensures var order := SortSpec(post, Names(OrderFields(OrderByFieldNames)), SlotCount);
            && order == SlotValue(post, SortAllowList, 0) + SlotValue(post, SortAllowList, 1) + SlotValue(post, SortAllowList, 2)
            && |order| <= 3
            && forall x :: x in order ==> x in SortAllowList
  {
    OrderByFieldsAllowList();
    var names := SortAllowList;
    assert Distinct(names) by {
      assert |names[0]| == 4 && |names[1]| == 5 && |names[2]| == 7 && |names[3]| == 8;
    }
    SlotPickDistinct(post, names, 0);
    SlotPickDistinct(post, names, 1);
    SlotPickDistinct(post, names, 2);
    assert SortSpec(post, names, 1) == SlotPick(post, names, 0);
    assert SortSpec(post, names, 2) == SortSpec(post, names, 1) + SlotPick(post, names, 1);
    assert SortSpec(post, names, 3) == SortSpec(post, names, 2) + SlotPick(post, names, 2);
    SlotValueBounded(post, names, 0);
    SlotValueBounded(post, names, 1);
    SlotValueBounded(post, names, 2);
  }

  lemma SlotValueBounded(post: Post, names: seq<string>, i: nat)
    ensures |SlotValue(post, names, i)| <= 1
    ensures forall x :: x in SlotValue(post, names, i) ==> x in names
  {
  }

  /** Splitting the stored sort string at ',' gives back the non-empty sort list that was joined. */
  lemma SortStringRoundTrip(order: seq<string>)
    requires order != []
    requires forall x :: x in order ==> x in SortAllowList
    ensures Split(Join(order, ','), ',') == order
  {
    forall k | 0 <= k < |order| ensures ',' !in order[k] {
      assert order[k] in order;
      AllowedHasNoComma(order[k]);
    }
    SplitJoin(order, ',');
  }

  // ---------------------------------------------------------------------
  // Filter choices
  // ---------------------------------------------------------------------

  /** No two filter fields coincide, and no `<field>__in` key is another field's name. */
  predicate FilterKeysDistinct(fields: seq<string>)
  {
    && Distinct(fields)
    && forall i, j :: 0 <= i < |fields| && 0 <= j < |fields| ==> fields[i] + "__in" != fields[j]
  }

  lemma FilterFieldsKeysDistinct()
    ensures FilterKeysDistinct(FilterFields)
  {
    var fs := FilterFields;
    assert |fs[0]| == 6 && |fs[1]| == 16 && |fs[2]| == 9 && |fs[3]| == 4;
    forall i, j | 0 <= i < |fs| && 0 <= j < |fs| ensures fs[i] + "__in" != fs[j] {
      assert |fs[i] + "__in"| == |fs[i]| + 4;
    }
  }

  lemma SuffixCancel(a: string, b: string, t: string)
    requires a + t == b + t
    ensures a == b
  {
    assert a == (a + t)[..|a|];
    assert b == (b + t)[..|b|];
  }

  lemma FilterKeysApart(fields: seq<string>, f: string, g: string)
    requires FilterKeysDistinct(fields) && f in fields && g in fields
    ensures f + "__in" != g
    ensures f != g ==> f + "__in" != g + "__in"
  {
    var i :| 0 <= i < |fields| && fields[i] == f;
    var j :| 0 <= j < |fields| && fields[j] == g;
    if f + "__in" == g + "__in" {
      SuffixCancel(f, g, "__in");
    }
  }

  /** The filter map's keys are `<f>__in` and `<f>` for the fields looped over. */
  lemma {:induction false} FilterSpecKeys(post: Post, fields: seq<string>)
    ensures forall key :: key in FilterSpec(post, fields) ==> exists f :: f in fields && (key == f + "__in" || key == f)
  {
    if |fields| > 0 {
      var prefix := fields[..|fields| - 1];
      var last := fields[|fields| - 1];
      FilterSpecKeys(post, prefix);
      assert forall f :: f in prefix ==> f in fields;
      assert last in fields;
    }
  }

  /** A turn of the filter loop for `g` touches only the keys `<g>__in` and `<g>`. */
  lemma StepKeepsOthers(post: Post, m: FilterMap, g: string, key: string)
    requires key != g + "__in" && key != g
    ensures key in FilterStep(post, m, g) <==> key in m
    ensures key in m ==> FilterStep(post, m, g)[key] == m[key]
  {
  }

  /** Before the turn for the last field, neither of its keys is in the map. */
  lemma {:induction false} LastKeysFresh(post: Post, fields: seq<string>)
    requires FilterKeysDistinct(fields) && |fields| > 0
    ensures var m := FilterSpec(post, fields[..|fields| - 1]);
            fields[|fields| - 1] + "__in" !in m && fields[|fields| - 1] !in m
  {
    var prefix := fields[..|fields| - 1];
    var last := fields[|fields| - 1];
    var m := FilterSpec(post, prefix);
    FilterSpecKeys(post, prefix);
    forall key | key in m ensures key != last + "__in" && key != last {
      var g :| g in prefix && (key == g + "__in" || key == g);
      var k :| 0 <= k < |prefix| && prefix[k] == g;
      assert fields[k] == g;
      FilterKeysApart(fields, g, last);
      FilterKeysApart(fields, last, g);
    }
  }

  /**
   * For one field `f` of the loop: `<f>__in` is in the filter map exactly
   * when the list filter was posted with a decimal entry, and then holds
   * every posted value; `<f>` is there, as None, exactly when
   * `filter__<f>__none` was posted.
   */
  lemma {:induction false} FilterSpecAt(post: Post, fields: seq<string>, f: string)
    requires FilterKeysDistinct(fields) && f in fields
    ensures var m := FilterSpec(post, fields);
            && (f + "__in" in m <==> ListFilterPosted(post, f))
            && (ListFilterPosted(post, f) ==> m[f + "__in"] == InList(GetList(post, InKey(f))))
            && (f in m <==> Has(post, NoneKey(f)))
            && (f in m ==> m[f] == IsNull)
  {
    var prefix := fields[..|fields| - 1];
    var last := fields[|fields| - 1];
    var m := FilterSpec(post, prefix);
    assert FilterSpec(post, fields) == FilterStep(post, m, last);
    if f == last {
      LastKeysFresh(post, fields);
    } else {
      assert fields == prefix + [last];
      assert f in prefix;
      assert FilterKeysDistinct(prefix);
      FilterSpecAt(post, prefix, f);
      FilterKeysApart(fields, f, last);
      FilterKeysApart(fields, last, f);
      StepKeepsOthers(post, m, last, f + "__in");
      StepKeepsOthers(post, m, last, f);
    }
  }

  /**
   * The ticket list's filter map: keys only from the four allow-listed
   * fields; `<f>__in` exactly when the list filter on `f` was posted with a
   * decimal entry, holding every posted value; `<f>`, as None, exactly when
   * `filter__<f>__none` was posted.
   */
  lemma TicketFilterShape(post: Post)
    ensures var m := FilterSpec(post, FilterFields);
            && (forall key :: key in m ==> exists f :: f in FilterFields && (key == f + "__in" || key == f))
            && (forall f :: f in FilterFields ==> (f + "__in" in m <==> ListFilterPosted(post, f)))
            && (forall f :: f in FilterFields && ListFilterPosted(post, f) ==> m[f + "__in"] == InList(GetList(post, InKey(f))))
            && (forall f :: f in FilterFields ==> (f in m <==> Has(post, NoneKey(f))))
            && (forall f :: f in FilterFields && f in m ==> m[f] == IsNull)
  {
    FilterFieldsKeysDistinct();
    FilterSpecKeys(post, FilterFields);
    forall f | f in FilterFields
      ensures var m := FilterSpec(post, FilterFields);
              && (f + "__in" in m <==> ListFilterPosted(post, f))
              && (ListFilterPosted(post, f) ==> m[f + "__in"] == InList(GetList(post, InKey(f))))
              && (f in m <==> Has(post, NoneKey(f)))
              && (f in m ==> m[f] == IsNull)
    {
      FilterSpecAt(post, FilterFields, f);
    }
  }

  // ---------------------------------------------------------------------
  // Saved views
  // ---------------------------------------------------------------------

  /** Replacing a row by one with the same key keeps the keys unique and every row under another key. */
  lemma ReplaceSameKey(vs: seq<Vista>, i: nat, v: Vista)
    requires UniqueKeys(vs) && i < |vs| && KeyOf(v) == KeyOf(vs[i])
    ensures UniqueKeys(vs[i := v])
    ensures forall w :: KeyOf(w) != KeyOf(v) ==> (w in vs[i := v] <==> w in vs)
  {
    var r := vs[i := v];
    forall w | KeyOf(w) != KeyOf(v) ensures w in r <==> w in vs {
      if w in r {
        var k :| 0 <= k < |r| && r[k] == w;
        assert k != i && vs[k] == w;
      }
      if w in vs {
        var k :| 0 <= k < |vs| && vs[k] == w;
        assert k != i && r[k] == w;
      }
    }
  }

  /** The row stored under `key` before the request, or the blank row `get_or_create` would insert. */
  function StoredOrBlank(vs: seq<Vista>, key: VistaKey): (v: Vista)
    ensures KeyOf(v) == key
    ensures (forall j :: 0 <= j < |vs| ==> KeyOf(vs[j]) != key) ==> v == Blank(key)
    ensures UniqueKeys(vs) ==> forall j :: 0 <= j < |vs| && KeyOf(vs[j]) == key ==> v == vs[j]
  {
    if FindKey(vs, key).Some? then vs[FindKey(vs, key).value] else Blank(key)
  }

  /** The saved view a submitted query leaves under `key`, built on the row that was there (or a blank one). */
  function UpsertedView(vs: seq<Vista>, key: VistaKey, orm: Orm, filter: FilterMap, order: seq<string>): Vista
  {
    var base := StoredOrBlank(vs, key);
    base.(filterstring := if filter != map[] then orm.encode(filter) else base.filterstring,
          sortstring := if order != [] then Join(order, ',') else base.sortstring)
  }

  /** The ORM builds the queryset for a submitted filter and sort without raising. */
  predicate QueryAccepted(orm: Orm, filter: FilterMap, order: seq<string>)
  {
    (filter != map[] ==> orm.filterAccepted(filter)) && (order != [] ==> orm.orderAccepted(order))
  }

  /** `get_or_create` alone: exactly one row has the key, the stored one or a blank one, and no other row changes. */
  lemma GetOrCreateKeepsOthers(vs: seq<Vista>, key: VistaKey)
    requires UniqueKeys(vs)
    ensures var r := GetOrCreate(vs, key).0;
            && UniqueKeys(r)
            && KeyCount(r, key) == 1
            && (forall j :: 0 <= j < |r| && KeyOf(r[j]) == key ==> r[j] == StoredOrBlank(vs, key))
            && (forall w :: KeyOf(w) != key ==> (w in r <==> w in vs))
  {
    var (r, i) := GetOrCreate(vs, key);
    UniqueKeyCount(r, key);
    forall j | 0 <= j < |r| && KeyOf(r[j]) == key ensures r[j] == StoredOrBlank(vs, key) {
      if r == vs {
      } else {
        assert r == vs + [Blank(key)];
        if j < |vs| {
          assert false;
        }
      }
    }
    forall w | KeyOf(w) != key ensures w in r <==> w in vs {
      if r != vs {
        assert r == vs + [Blank(key)];
      }
    }
  }

  /**
   * `get_or_create` followed by saving the row under the same key: exactly
   * one row has the key, it is the saved one, and no other row changes.
   */
  lemma UpsertKeepsOthers(vs: seq<Vista>, key: VistaKey, v: Vista)
    requires UniqueKeys(vs) && KeyOf(v) == key
    ensures var (vs1, i) := GetOrCreate(vs, key);
            var r := vs1[i := v];
            && UniqueKeys(r)
            && KeyCount(r, key) == 1
            && (forall j :: 0 <= j < |r| && KeyOf(r[j]) == key ==> r[j] == v)
            && (forall w :: KeyOf(w) != key ==> (w in r <==> w in vs))
  {
    var (vs1, i) := GetOrCreate(vs, key);
    var r := vs1[i := v];
    ReplaceSameKey(vs1, i, v);
    UniqueKeyCount(r, key);
    assert KeyOf(r[i]) == key;
    forall j | 0 <= j < |r| && KeyOf(r[j]) == key ensures r[j] == v {
      if j != i {
        assert false;
      }
    }
    forall w | KeyOf(w) != key ensures w in vs1 <==> w in vs {
      if vs1 != vs {
        assert vs1 == vs + [Blank(key)];
      }
    }
  }

  /**
   * A submitted query with filters or a sort leaves exactly one saved view
   * for (user, "libtekticket.ticket", name) and changes no other saved view,
   * whatever the ORM does. When the ORM accepts the query, that view's filter
   * string is overwritten only if filters were posted and its sort string
   * only if a sort was, and the selection is returned. When the ORM rejects
   * it, the request raises after `get_or_create`: the view is the stored one
   * unchanged, or a new blank one.
   */
  lemma SubmitUpserts(post: Post, user: UserId, names: seq<string>, orm: Orm,
                      vs: seq<Vista>, filterObject: FilterMap, orderBy: seq<string>)
    requires UniqueKeys(vs)
    requires Has(post, "query_submitted")
    requires FilterSpec(post, FilterFields) != map[] || SortSpec(post, names, SlotCount) != []
    ensures var filter := FilterSpec(post, FilterFields);
            var order := SortSpec(post, names, SlotCount);
            var key := VistaKey(user, TicketModelName, VistaName(post));
            var e := Respond(post, user, names, orm, vs, filterObject, orderBy);
            && UniqueKeys(e.vistas)
            && KeyCount(e.vistas, key) == 1
            && (forall w :: KeyOf(w) != key ==> (w in e.vistas <==> w in vs))
            && (QueryAccepted(orm, filter, order) ==>
                  && e.outcome == Returned(Select(filter, if order != [] then OrderBy(order) else Unordered))
                  && forall j :: 0 <= j < |e.vistas| && KeyOf(e.vistas[j]) == key ==>
                       e.vistas[j] == UpsertedView(vs, key, orm, filter, order))
            && (!QueryAccepted(orm, filter, order) ==>
                  && e.outcome == Raised
                  && forall j :: 0 <= j < |e.vistas| && KeyOf(e.vistas[j]) == key ==>
                       e.vistas[j] == StoredOrBlank(vs, key))
  {
    var filter := FilterSpec(post, FilterFields);
    var order := SortSpec(post, names, SlotCount);
    var key := VistaKey(user, TicketModelName, VistaName(post));
    var (vs1, i) := GetOrCreate(vs, key);
    if QueryAccepted(orm, filter, order) {
      var saved := vs1[i].(filterstring := if filter != map[] then orm.encode(filter) else vs1[i].filterstring,
                           sortstring := if order != [] then Join(order, ',') else vs1[i].sortstring);
      assert Respond(post, user, names, orm, vs, filterObject, orderBy).vistas == vs1[i := saved];
      GetOrCreateKeepsOthers(vs, key);
      assert vs1[i] == StoredOrBlank(vs, key);
      assert saved == UpsertedView(vs, key, orm, filter, order);
      UpsertKeepsOthers(vs, key, saved);
    } else {
      assert Respond(post, user, names, orm, vs, filterObject, orderBy).vistas == vs1;
      GetOrCreateKeepsOthers(vs, key);
    }
  }

  /** A submitted query with no valid filter and no valid sort saves nothing and lists every ticket. */
  lemma SubmitNothingValid(post: Post, user: UserId, names: seq<string>, orm: Orm,
                           vs: seq<Vista>, filterObject: FilterMap, orderBy: seq<string>)
    requires Has(post, "query_submitted")
    requires FilterSpec(post, FilterFields) == map[] && SortSpec(post, names, SlotCount) == []
    ensures Respond(post, user, names, orm, vs, filterObject, orderBy)
            == Effect(Returned(AllTickets), vs, filterObject, orderBy)
  {
  }

  /**
   * Saving a query with both a filter and a sort under a name, and loading
   * that name in the next request, gives back the same filter and sort, when
   * `json.loads` inverts `json.dumps` on the filter and the ORM accepts both.
   */
  lemma SaveThenLoad(post1: Post, post2: Post, user: UserId, orm: Orm,
                     vs: seq<Vista>, filterObject: FilterMap, orderBy: seq<string>)
    requires UniqueKeys(vs)
    requires Has(post1, "query_submitted")
    requires var filter := FilterSpec(post1, FilterFields);
             var order := SortSpec(post1, Names(OrderFields(OrderByFieldNames)), SlotCount);
             && filter != map[] && order != []
             && orm.filterAccepted(filter) && orm.orderAccepted(order)
             && orm.decode(orm.encode(filter)) == Some(filter)
    requires !Has(post2, "query_submitted") && Has(post2, "get_vista")
    requires VistaName(post2) == VistaName(post1)
    ensures var names := Names(OrderFields(OrderByFieldNames));
            var e1 := Respond(post1, user, names, orm, vs, filterObject, orderBy);
            var e2 := Respond(post2, user, names, orm, e1.vistas, e1.filterObject, e1.orderBy);
            && e2.outcome == Returned(Select(FilterSpec(post1, FilterFields), OrderBy(SortSpec(post1, names, SlotCount))))
            && e2.vistas == e1.vistas
  {
    var names := Names(OrderFields(OrderByFieldNames));
    var filter := FilterSpec(post1, FilterFields);
    var order := SortSpec(post1, names, SlotCount);
    var key := VistaKey(user, TicketModelName, VistaName(post1));
    var e1 := Respond(post1, user, names, orm, vs, filterObject, orderBy);
    SubmitUpserts(post1, user, names, orm, vs, filterObject, orderBy);
    var (vs1, i) := GetOrCreate(e1.vistas, key);
    assert KeyCount(e1.vistas, key) == 1;
    assert vs1 == e1.vistas;
    assert QueryAccepted(orm, filter, order);
    assert vs1[i] == UpsertedView(vs, key, orm, filter, order);
    SortChoices(post1);
    SortStringRoundTrip(order);
    assert vs1[i].filterstring == orm.encode(filter);
    assert Split(vs1[i].sortstring, ',') == order;
  }

  /** A load request for a key that names exactly the row `v` decodes `v` and changes no saved view. */
  lemma LoadStoredRow(post: Post, user: UserId, names: seq<string>, orm: Orm,
                      vs: seq<Vista>, filterObject: FilterMap, orderBy: seq<string>, v: Vista)
    requires !Has(post, "query_submitted") && Has(post, "get_vista")
    requires UniqueKeys(vs)
    requires v in vs && KeyOf(v) == VistaKey(user, TicketModelName, VistaName(post))
    ensures var e := Respond(post, user, names, orm, vs, filterObject, orderBy);
            && e.vistas == vs
            && e.outcome == match orm.decode(v.filterstring)
                            case None => Returned(AllTickets)
                            case Some(f) =>
                              if orm.filterAccepted(f) && orm.orderAccepted(Split(v.sortstring, ','))
                              then Returned(Select(f, OrderBy(Split(v.sortstring, ','))))
                              else Raised
  {
    var key := VistaKey(user, TicketModelName, VistaName(post));
    var j :| 0 <= j < |vs| && vs[j] == v;
    var (vs1, i) := GetOrCreate(vs, key);
    assert vs1 == vs;
    assert i == j;
  }

  /**
   * Saving a query with a sort and no filter, then loading that name, decodes
   * the filter string the view held before the save: the saved sort is
   * applied only together with that earlier filter.
   */
  lemma SortOnlySaveThenLoad(post1: Post, post2: Post, user: UserId, orm: Orm,
                             vs: seq<Vista>, filterObject: FilterMap, orderBy: seq<string>)
    requires UniqueKeys(vs)
    requires Has(post1, "query_submitted")
    requires var order := SortSpec(post1, Names(OrderFields(OrderByFieldNames)), SlotCount);
             FilterSpec(post1, FilterFields) == map[] && order != [] && orm.orderAccepted(order)
    requires !Has(post2, "query_submitted") && Has(post2, "get_vista")
    requires VistaName(post2) == VistaName(post1)
    ensures var names := Names(OrderFields(OrderByFieldNames));
            var order := SortSpec(post1, names, SlotCount);
            var key := VistaKey(user, TicketModelName, VistaName(post1));
            var e1 := Respond(post1, user, names, orm, vs, filterObject, orderBy);
            var e2 := Respond(post2, user, names, orm, e1.vistas, e1.filterObject, e1.orderBy);
            && e2.vistas == e1.vistas
            && e2.outcome == match orm.decode(StoredOrBlank(vs, key).filterstring)
                             case None => Returned(AllTickets)
                             case Some(f) =>
                               if orm.filterAccepted(f) && orm.orderAccepted(order)
                               then Returned(Select(f, OrderBy(order)))
                               else Raised
  {
    var names := Names(OrderFields(OrderByFieldNames));
    var order := SortSpec(post1, names, SlotCount);
    var key := VistaKey(user, TicketModelName, VistaName(post1));
    var e1 := Respond(post1, user, names, orm, vs, filterObject, orderBy);
    assert QueryAccepted(orm, map[], order);
    SubmitUpserts(post1, user, names, orm, vs, filterObject, orderBy);
    var v := UpsertedView(vs, key, orm, map[], order);
    assert v in e1.vistas by {
      var j :| 0 <= j < |e1.vistas| && KeyOf(e1.vistas[j]) == key;
    }
    LoadStoredRow(post2, user, names, orm, e1.vistas, e1.filterObject, e1.orderBy, v);
    SortChoices(post1);
    SortStringRoundTrip(order);
    assert Split(v.sortstring, ',') == order;
  }

  /**
   * A sort-only query saved under a new name is never applied when loaded:
   * the new view keeps the blank filter string, which does not decode, so
   * every ticket is listed.
   */
  lemma SortOnlyNewNameLoadsAll(post1: Post, post2: Post, user: UserId, orm: Orm,
                                vs: seq<Vista>, filterObject: FilterMap, orderBy: seq<string>)
    requires UniqueKeys(vs)
    requires Has(post1, "query_submitted")
    requires var order := SortSpec(post1, Names(OrderFields(OrderByFieldNames)), SlotCount);
             FilterSpec(post1, FilterFields) == map[] && order != [] && orm.orderAccepted(order)
    requires !Has(post2, "query_submitted") && Has(post2, "get_vista")
    requires VistaName(post2) == VistaName(post1)
    requires forall j :: 0 <= j < |vs| ==> KeyOf(vs[j]) != VistaKey(user, TicketModelName, VistaName(post1))
    requires orm.decode(DefaultFilterString).None?
    ensures var names := Names(OrderFields(OrderByFieldNames));
            var e1 := Respond(post1, user, names, orm, vs, filterObject, orderBy);
            var e2 := Respond(post2, user, names, orm, e1.vistas, e1.filterObject, e1.orderBy);
            e2.outcome == Returned(AllTickets)
  {
    SortOnlySaveThenLoad(post1, post2, user, orm, vs, filterObject, orderBy);
  }

  /**
   * Loading a saved view never deletes one: at most a blank view for the
   * requested name is added, and a view that does not decode lists every
   * ticket.
   */
  lemma LoadKeepsViews(post: Post, user: UserId, names: seq<string>, orm: Orm,
                       vs: seq<Vista>, filterObject: FilterMap, orderBy: seq<string>)
    requires !Has(post, "query_submitted") && Has(post, "get_vista")
    ensures var key := VistaKey(user, TicketModelName, VistaName(post));
            var e := Respond(post, user, names, orm, vs, filterObject, orderBy);
            && (e.vistas == vs || e.vistas == vs + [Blank(key)])
            && (exists j :: 0 <= j < |e.vistas| && KeyOf(e.vistas[j]) == key)
            && (orm.decode(GetOrCreate(vs, key).0[GetOrCreate(vs, key).1].filterstring).None? ==>
                  e.outcome == Returned(AllTickets))
  {
    var key := VistaKey(user, TicketModelName, VistaName(post));
    var r := GetOrCreate(vs, key);
    assert KeyOf(r.0[r.1]) == key;
  }

  /**
   * In the load branch a stored filter the ORM rejects is not caught: the
   * request fails, and the view stays.
   */
  lemma LoadRejectedFilterRaises(post: Post, user: UserId, names: seq<string>, orm: Orm,
                                 vs: seq<Vista>, filterObject: FilterMap, orderBy: seq<string>)
    requires !Has(post, "query_submitted") && Has(post, "get_vista")
    requires var key := VistaKey(user, TicketModelName, VistaName(post));
             var stored := GetOrCreate(vs, key).0[GetOrCreate(vs, key).1];
             orm.decode(stored.filterstring).Some? && !orm.filterAccepted(orm.decode(stored.filterstring).value)
    ensures Respond(post, user, names, orm, vs, filterObject, orderBy).outcome == Raised
  {
  }

  /**
   * The fallback view: the user's last default view, if any (whatever model
   * it belongs to); else the user's last view; else a blank one appended.
   */
  lemma FallbackChoice(vs: seq<Vista>, user: UserId)
    ensures var (vs2, i) := FallbackVista(vs, user);
            && ((exists j :: 0 <= j < |vs| && vs[j].user == user && vs[j].isDefault) ==>
                  vs2 == vs && vs[i].isDefault
                  && forall j :: i < j < |vs| ==> !(vs[j].user == user && vs[j].isDefault))
            && ((forall j :: 0 <= j < |vs| ==> !(vs[j].user == user && vs[j].isDefault))
                && (exists j :: 0 <= j < |vs| && vs[j].user == user) ==>
                  vs2 == vs && forall j :: i < j < |vs| ==> vs[j].user != user)
            && ((forall j :: 0 <= j < |vs| ==> vs[j].user != user) ==>
                  vs2 == vs + [Blank(VistaKey(user, DefaultModelName, DefaultName))])
  {
    var r := FallbackVista(vs, user);
    if exists j :: 0 <= j < |vs| && vs[j].user == user && vs[j].isDefault {
      var j :| 0 <= j < |vs| && vs[j].user == user && vs[j].isDefault;
      assert Matches(vs[j], DefaultOf(user));
    } else if exists j :: 0 <= j < |vs| && vs[j].user == user {
      var j :| 0 <= j < |vs| && vs[j].user == user;
      assert Matches(vs[j], OwnedBy(user));
      assert forall k :: 0 <= k < |vs| ==> !Matches(vs[k], DefaultOf(user));
    } else {
      assert forall k :: 0 <= k < |vs| ==> !Matches(vs[k], DefaultOf(user)) && !Matches(vs[k], OwnedBy(user));
    }
  }

  /** The fallback adds at most a blank row, which is not filed under the ticket list's model name. */
  lemma FallbackAddsNoTicketView(vs: seq<Vista>, user: UserId, key: VistaKey)
    requires key.modelName == TicketModelName
    requires forall j :: 0 <= j < |vs| ==> KeyOf(vs[j]) != key
    ensures var r := FallbackVista(vs, user).0;
            forall j :: 0 <= j < |r| ==> KeyOf(r[j]) != key
  {
    var r := FallbackVista(vs, user).0;
    if r != vs {
      assert r == vs + [Blank(VistaKey(user, DefaultModelName, DefaultName))];
      assert DefaultModelName != TicketModelName;
    }
  }

  lemma DeleteAtAddsNothing(vs: seq<Vista>, i: nat, key: VistaKey)
    requires i < |vs|
    requires forall j :: 0 <= j < |vs| ==> KeyOf(vs[j]) != key
    ensures var r := DeleteAt(vs, i);
            forall j :: 0 <= j < |r| ==> KeyOf(r[j]) != key
  {
    var r := DeleteAt(vs, i);
    forall j | 0 <= j < |r| ensures KeyOf(r[j]) != key {
      assert r[j] in vs;
    }
  }

  /** After a delete request with a name, no saved view of that name is left for the user. */
  lemma DeleteRemovesNamed(post: Post, user: UserId, names: seq<string>, orm: Orm,
                           vs: seq<Vista>, filterObject: FilterMap, orderBy: seq<string>)
    requires !Has(post, "query_submitted") && !Has(post, "get_vista") && Has(post, "delete_vista")
    requires HasNonEmpty(post, "vista__name")
    ensures var key := VistaKey(user, TicketModelName, VistaName(post));
            var e := Respond(post, user, names, orm, vs, filterObject, orderBy);
            forall j :: 0 <= j < |e.vistas| ==> KeyOf(e.vistas[j]) != key
  {
    var key := VistaKey(user, TicketModelName, VistaName(post));
    var vs1 := RemoveKey(vs, key);
    FallbackAddsNoTicketView(vs1, user, key);
    var (vs2, i) := FallbackVista(vs1, user);
    DeleteAtAddsNothing(vs2, i, key);
  }

  /**
   * In the delete branch the fallback view is applied as stored when it
   * decodes and the ORM accepts it; otherwise it is deleted and every ticket
   * is listed.
   */
  lemma DeleteFallbackOutcome(post: Post, user: UserId, names: seq<string>, orm: Orm,
                              vs: seq<Vista>, filterObject: FilterMap, orderBy: seq<string>)
    requires UniqueKeys(vs)
    requires !Has(post, "query_submitted") && !Has(post, "get_vista") && Has(post, "delete_vista")
    ensures var vs1 := if HasNonEmpty(post, "vista__name")
                       then RemoveKey(vs, VistaKey(user, TicketModelName, VistaName(post))) else vs;
            var (vs2, i) := FallbackVista(vs1, user);
            var decoded := orm.decode(vs2[i].filterstring);
            var order := Split(vs2[i].sortstring, ',');
            var applied := decoded.Some? && orm.filterAccepted(decoded.value) && orm.listOrderAccepted(order);
            var e := Respond(post, user, names, orm, vs, filterObject, orderBy);
            && (applied ==> e.outcome == Returned(Select(decoded.value, OrderByOneList(order))) && e.vistas == vs2)
            && (!applied ==> e.outcome == Returned(AllTickets) && vs2[i] !in e.vistas && |e.vistas| == |vs2| - 1)
  {
    var vs1 := if HasNonEmpty(post, "vista__name")
               then RemoveKey(vs, VistaKey(user, TicketModelName, VistaName(post))) else vs;
    assert UniqueKeys(vs1);
    FallbackKeepsKeysUnique(vs1, user);
  }

  lemma FallbackKeepsKeysUnique(vs: seq<Vista>, user: UserId)
    requires UniqueKeys(vs)
    ensures UniqueKeys(FallbackVista(vs, user).0)
  {
    var r := FallbackVista(vs, user);
    if r.0 != vs {
      assert LastMatching(vs, OwnedBy(user)).None?;
      forall k | 0 <= k < |vs| ensures KeyOf(vs[k]) != KeyOf(r.0[|vs|]) {
        assert !Matches(vs[k], OwnedBy(user));
      }
    }
  }

  lemma SubmittedKeepsKeysUnique(post: Post, user: UserId, names: seq<string>, orm: Orm,
                                 vs: seq<Vista>, filterObject: FilterMap, orderBy: seq<string>)
    requires UniqueKeys(vs)
    ensures UniqueKeys(SubmittedQuery(post, user, names, orm, vs, filterObject, orderBy).vistas)
  {
    var filter := FilterSpec(post, FilterFields);
    var order := SortSpec(post, names, SlotCount);
    if filter != map[] || order != [] {
      var key := VistaKey(user, TicketModelName, VistaName(post));
      var (vs1, i) := GetOrCreate(vs, key);
      var saved := vs1[i].(filterstring := if filter != map[] then orm.encode(filter) else vs1[i].filterstring,
                           sortstring := if order != [] then Join(order, ',') else vs1[i].sortstring);
      ReplaceSameKey(vs1, i, saved);
    }
  }

  lemma DeletedKeepsKeysUnique(post: Post, user: UserId, orm: Orm,
                               vs: seq<Vista>, filterObject: FilterMap, orderBy: seq<string>)
    requires UniqueKeys(vs)
    ensures UniqueKeys(DeletedVista(post, user, orm, vs, filterObject, orderBy).vistas)
  {
    var vs1 := if HasNonEmpty(post, "vista__name")
               then RemoveKey(vs, VistaKey(user, TicketModelName, VistaName(post))) else vs;
    FallbackKeepsKeysUnique(vs1, user);
  }

  /** Every request keeps saved-view keys unique, so `get_or_create` never meets two rows. */
  lemma RespondKeepsKeysUnique(post: Post, user: UserId, names: seq<string>, orm: Orm,
                               vs: seq<Vista>, filterObject: FilterMap, orderBy: seq<string>)
    requires UniqueKeys(vs)
    ensures UniqueKeys(Respond(post, user, names, orm, vs, filterObject, orderBy).vistas)
  {
    if Has(post, "query_submitted") {
      SubmittedKeepsKeysUnique(post, user, names, orm, vs, filterObject, orderBy);
    } else if !Has(post, "get_vista") && Has(post, "delete_vista") {
      DeletedKeepsKeysUnique(post, user, orm, vs, filterObject, orderBy);
    }
  }
}
