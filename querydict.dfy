/**
 * A Django `QueryDict` (the parsed POST body) as the ordered list of
 * key/value pairs it was parsed from. A key is present exactly when at least
 * one pair carries it, `getlist` returns that key's values in order, and
 * `get` returns the last of them.
 */
module QueryDict {
  import opened Wrappers

  datatype Pair = Pair(key: string, value: string)

  type Post = seq<Pair>

  /** The values posted under `key`, in the order posted. */
  function ValuesOf(post: Post, key: string): (r: seq<string>)
    ensures |r| <= |post|
  {
    if |post| == 0 then []
    else (if post[0].key == key then [post[0].value] else []) + ValuesOf(post[1..], key)
  }

  /** The values of a concatenated body are the values of its first part, then those of its second. */
  lemma {:induction false} ValuesOfConcat(a: Post, b: Post, key: string)
    ensures ValuesOf(a + b, key) == ValuesOf(a, key) + ValuesOf(b, key)
  {
    if |a| == 0 {
      assert a + b == b;
    } else {
      var head := if a[0].key == key then [a[0].value] else [];
      assert (a + b)[0] == a[0];
      assert (a + b)[1..] == a[1..] + b;
      assert ValuesOf(a + b, key) == head + ValuesOf(a[1..] + b, key);
      ValuesOfConcat(a[1..], b, key);
      assert ValuesOf(a, key) == head + ValuesOf(a[1..], key);
    }
  }

  /** A value is listed exactly when some pair carries it under `key`. */
  lemma {:induction false} ValuesOfMembers(post: Post, key: string)
    ensures forall v :: v in ValuesOf(post, key) <==> Pair(key, v) in post
  {
    if |post| > 0 {
      ValuesOfMembers(post[1..], key);
      assert post == [post[0]] + post[1..];
    }
  }

  /** The last value under `key` comes from the last pair that carries `key`. */
  lemma {:induction false} ValuesOfLast(post: Post, key: string)
    requires ValuesOf(post, key) != []
    ensures var values := ValuesOf(post, key);
            exists k :: 0 <= k < |post| && post[k] == Pair(key, values[|values| - 1])
                        && forall j :: k < j < |post| ==> post[j].key != key
  {
    var prefix := post[..|post| - 1];
    var last := post[|post| - 1];
    assert post == prefix + [last];
    ValuesOfConcat(prefix, [last], key);
    assert ValuesOf([last], key) == (if last.key == key then [last.value] else []) + ValuesOf([], key);
    if last.key == key {
      assert post[|post| - 1] == Pair(key, last.value);
    } else {
      ValuesOfLast(prefix, key);
      var values := ValuesOf(prefix, key);
      var k :| 0 <= k < |prefix| && prefix[k] == Pair(key, values[|values| - 1])
               && forall j :: k < j < |prefix| ==> prefix[j].key != key;
      assert post[k] == prefix[k];
      forall j | k < j < |post| ensures post[j].key != key {
        if j < |prefix| {
          assert post[j] == prefix[j];
        }
      }
    }
  }

  /** `post.getlist(key)`: every value posted under `key`, and only those, in the order posted. */
  function GetList(post: Post, key: string): (r: seq<string>)
    ensures r == ValuesOf(post, key)
    ensures |r| <= |post|
    ensures r == [] <==> forall k :: 0 <= k < |post| ==> post[k].key != key
    ensures forall v :: v in r <==> Pair(key, v) in post
  {
    ValuesOfMembers(post, key);
    assert (exists k :: 0 <= k < |post| && post[k].key == key) ==> ValuesOf(post, key) != [] by {
      if exists k :: 0 <= k < |post| && post[k].key == key {
        var k :| 0 <= k < |post| && post[k].key == key;
        assert Pair(key, post[k].value) in post;
      }
    }
    assert ValuesOf(post, key) != [] ==> exists k :: 0 <= k < |post| && post[k].key == key by {
      if ValuesOf(post, key) != [] {
        assert ValuesOf(post, key)[0] in ValuesOf(post, key);
        var k :| 0 <= k < |post| && post[k] == Pair(key, ValuesOf(post, key)[0]);
      }
    }
    ValuesOf(post, key)
  }

  /** `getlist` of a body posted in two parts lists the first part's values, then the second's. */
  lemma GetListConcat(a: Post, b: Post, key: string)
    ensures GetList(a + b, key) == GetList(a, key) + GetList(b, key)
  {
    ValuesOfConcat(a, b, key);
  }

  /** `key in post`. */
  predicate Has(post: Post, key: string)
  {
    GetList(post, key) != []
  }

  /** `post.get(key)`: the last value posted under `key`, or None. */
  function Get(post: Post, key: string): (r: Option<string>)
    ensures r.Some? <==> Has(post, key)
    ensures r.Some? ==> exists k :: 0 <= k < |post| && post[k] == Pair(key, r.value)
                                    && forall j :: k < j < |post| ==> post[j].key != key
  {
    var values := GetList(post, key);
    if values == [] then None
    else
      ValuesOfLast(post, key);
      Some(values[|values| - 1])
  }

  /** `key in post and post.get(key) > ''`: the key was posted with a non-empty last value. */
  predicate HasNonEmpty(post: Post, key: string)
  {
    Get(post, key).Some? && |Get(post, key).value| > 0
  }
}
