/**
 * The table of saved list views ("vistas") the ticket list reads and writes.
 * Rows are kept in primary-key order, which is the order `.last()` uses;
 * the functions here are the table operations the list view performs:
 * `get_or_create`, `filter(...).delete()`, `filter(...).last()` and
 * `vista.delete()`.
 */
module SavedViews {
  import opened Wrappers
  import opened Models

  datatype Vista = Vista(
    user: UserId,
    modelName: string,
    name: string,
    filterstring: string,
    sortstring: string,
    isDefault: bool)

  /** The fields the ticket list looks a saved view up by. */
  datatype VistaKey = VistaKey(user: UserId, modelName: string, name: string)

  function KeyOf(v: Vista): VistaKey
  {
    VistaKey(v.user, v.modelName, v.name)
  }

  /** Column defaults of a freshly created saved view. */
  const DefaultModelName: string := ""
  const DefaultName: string := ""
  const DefaultFilterString: string := ""
  const DefaultSortString: string := ""

  /** The row `get_or_create` inserts for `key`, every other column at its default. */
  function Blank(key: VistaKey): (v: Vista)
    ensures KeyOf(v) == key && !v.isDefault
  {
    Vista(key.user, key.modelName, key.name, DefaultFilterString, DefaultSortString, false)
  }

  /** No two rows share a lookup key, so `get` never finds two rows. */
  predicate UniqueKeys(vs: seq<Vista>)
  {
    forall i, j :: 0 <= i < j < |vs| ==> KeyOf(vs[i]) != KeyOf(vs[j])
  }

  /** How many rows carry `key`. */
  function KeyCount(vs: seq<Vista>, key: VistaKey): (n: nat)
    ensures n <= |vs|
    ensures n == 0 <==> forall j :: 0 <= j < |vs| ==> KeyOf(vs[j]) != key
  {
    if |vs| == 0 then 0
    else KeyCount(vs[..|vs| - 1], key) + (if KeyOf(vs[|vs| - 1]) == key then 1 else 0)
  }

  lemma {:induction false} UniqueKeyCount(vs: seq<Vista>, key: VistaKey)
    requires UniqueKeys(vs)
    ensures KeyCount(vs, key) <= 1
    ensures (exists j :: 0 <= j < |vs| && KeyOf(vs[j]) == key) ==> KeyCount(vs, key) == 1
  {
    if |vs| > 0 {
      var prefix := vs[..|vs| - 1];
      assert UniqueKeys(prefix);
      UniqueKeyCount(prefix, key);
      if KeyOf(vs[|vs| - 1]) == key {
        assert forall j :: 0 <= j < |prefix| ==> KeyOf(prefix[j]) != key by {
          forall j | 0 <= j < |prefix| ensures KeyOf(prefix[j]) != key {
            assert KeyOf(vs[j]) != KeyOf(vs[|vs| - 1]);
          }
        }
      } else if exists j :: 0 <= j < |vs| && KeyOf(vs[j]) == key {
        var j :| 0 <= j < |vs| && KeyOf(vs[j]) == key;
        assert KeyOf(prefix[j]) == key;
      }
    }
  }

  /** The row `get` finds for `key`: the first one carrying it. */
  function FindKey(vs: seq<Vista>, key: VistaKey): (r: Option<nat>)
    ensures r.Some? ==> r.value < |vs| && KeyOf(vs[r.value]) == key
    ensures r.None? <==> forall j :: 0 <= j < |vs| ==> KeyOf(vs[j]) != key
  {
    if |vs| == 0 then None
    else match FindKey(vs[..|vs| - 1], key)
      case Some(i) => Some(i)
      case None => if KeyOf(vs[|vs| - 1]) == key then Some(|vs| - 1) else None
  }

  /**
   * `get_or_create` on the three key fields: the existing row, or a blank one
   * appended. Nothing already stored changes.
   */
  function GetOrCreate(vs: seq<Vista>, key: VistaKey): (r: (seq<Vista>, nat))
    ensures r.1 < |r.0| && KeyOf(r.0[r.1]) == key
    ensures vs <= r.0
    ensures r.0 == vs <==> exists j :: 0 <= j < |vs| && KeyOf(vs[j]) == key
    ensures r.0 != vs ==> r.0 == vs + [Blank(key)] && r.1 == |vs|
    ensures UniqueKeys(vs) ==> UniqueKeys(r.0)
  {
    match FindKey(vs, key)
    case Some(i) => (vs, i)
    case None => (vs + [Blank(key)], |vs|)
  }

  /** `filter(user=..., model_name=..., name=...).delete()`: every row with `key` goes, the rest keep their order. */
  function RemoveKey(vs: seq<Vista>, key: VistaKey): (r: seq<Vista>)
    ensures forall j :: 0 <= j < |r| ==> KeyOf(r[j]) != key
    ensures forall v :: v in vs && KeyOf(v) != key ==> v in r
    ensures forall v :: v in r ==> v in vs
    ensures UniqueKeys(vs) ==> UniqueKeys(r)
  {
    if |vs| == 0 then []
    else
      var prefix := vs[..|vs| - 1];
      var last := vs[|vs| - 1];
      var kept := RemoveKey(prefix, key);
      assert forall v :: v in vs ==> v in prefix || v == last;
      assert UniqueKeys(vs) ==> UniqueKeys(prefix);
      assert UniqueKeys(vs) ==> forall v :: v in prefix ==> KeyOf(v) != KeyOf(last) by {
        if UniqueKeys(vs) {
          forall v | v in prefix ensures KeyOf(v) != KeyOf(last) {
            var j :| 0 <= j < |prefix| && prefix[j] == v;
            assert vs[j] == v;
          }
        }
      }
      if KeyOf(last) == key then kept else kept + [last]
  }

  /** Where each row that survives `RemoveKey` sat in the table. */
  ghost function KeptPositions(vs: seq<Vista>, key: VistaKey): seq<nat>
  {
    if |vs| == 0 then []
    else KeptPositions(vs[..|vs| - 1], key) + (if KeyOf(vs[|vs| - 1]) == key then [] else [|vs| - 1])
  }

  /**
   * The rows that survive `RemoveKey` are the table's rows at strictly
   * increasing positions: they keep their relative order, which `.last()`
   * later reads.
   */
  lemma {:induction false} RemoveKeyKeepsOrder(vs: seq<Vista>, key: VistaKey)
    ensures var idx := KeptPositions(vs, key);
            var r := RemoveKey(vs, key);
            && |idx| == |r|
            && (forall a :: 0 <= a < |idx| ==> idx[a] < |vs| && vs[idx[a]] == r[a])
            && (forall a, b :: 0 <= a < b < |idx| ==> idx[a] < idx[b])
  {
    if |vs| > 0 {
      var prefix := vs[..|vs| - 1];
      var last := vs[|vs| - 1];
      RemoveKeyKeepsOrder(prefix, key);
      var idx0 := KeptPositions(prefix, key);
      var kept := RemoveKey(prefix, key);
      forall a | 0 <= a < |idx0| ensures vs[idx0[a]] == kept[a] {
        assert vs[idx0[a]] == prefix[idx0[a]];
      }
      if KeyOf(last) == key {
        assert KeptPositions(vs, key) == idx0;
        assert RemoveKey(vs, key) == kept;
      } else {
        assert KeptPositions(vs, key) == idx0 + [|vs| - 1];
        assert RemoveKey(vs, key) == kept + [last];
      }
    }
  }

  /** `vista.delete()` on the row at `i`. */
  function DeleteAt(vs: seq<Vista>, i: nat): (r: seq<Vista>)
    requires i < |vs|
    ensures |r| == |vs| - 1
    ensures forall v :: v in r ==> v in vs
    ensures UniqueKeys(vs) ==> UniqueKeys(r) && vs[i] !in r
    ensures forall v :: v in vs && v != vs[i] ==> v in r
  {
    assert vs == vs[..i] + [vs[i]] + vs[i + 1..];
    vs[..i] + vs[i + 1..]
  }

  /** The two row filters the default-view fallback uses (neither names the model). */
  datatype Lookup = DefaultOf(user: UserId) | OwnedBy(user: UserId)

  predicate Matches(v: Vista, lookup: Lookup)
  {
    match lookup
    case DefaultOf(u) => v.user == u && v.isDefault
    case OwnedBy(u) => v.user == u
  }

  /** `Vista.objects.filter(...).last()`: the matching row with the highest primary key. */
  function LastMatching(vs: seq<Vista>, lookup: Lookup): (r: Option<nat>)
    ensures r.Some? ==> r.value < |vs| && Matches(vs[r.value], lookup)
    ensures r.Some? ==> forall j :: r.value < j < |vs| ==> !Matches(vs[j], lookup)
    ensures r.None? <==> forall j :: 0 <= j < |vs| ==> !Matches(vs[j], lookup)
  {
    if |vs| == 0 then None
    else if Matches(vs[|vs| - 1], lookup) then Some(|vs| - 1)
    else LastMatching(vs[..|vs| - 1], lookup)
  }
}
