/** The slice of SQLite semantics the knowledge base relies on: the `LIKE`
    operator (no ESCAPE clause), `LIMIT ?` with a possibly negative bound,
    row filtering in table order, and `INSERT OR REPLACE` on a text primary
    key. Tables are sequences in rowid order; a key function extracts the
    primary key from a row. */
module Sql {
  import opened Wrappers
  import opened Js
  import opened Seqs

  // ------------------------------------------------------------------ LIKE

  predicate IsWildcard(c: char) {
    c == '%' || c == '_'
  }

  predicate WildcardFree(s: string) {
    forall i :: 0 <= i < |s| ==> !IsWildcard(s[i])
  }

  /** `t LIKE p`: `%` matches any run of characters, `_` exactly one, and any
      other character matches itself up to ASCII case. */
  predicate Like(p: string, t: string)
    decreases |p| + |t|
  {
    if |p| == 0 then |t| == 0
    else if p[0] == '%' then Like(p[1..], t) || (|t| > 0 && Like(p, t[1..]))
    else |t| > 0 && (p[0] == '_' || LowerChar(p[0]) == LowerChar(t[0])) && Like(p[1..], t[1..])
  }

  /** A NULL column never satisfies `LIKE`. */
  predicate LikeField(p: string, field: Option<string>) {
    field.Some? && Like(p, field.value)
  }

  /** The pattern `'%' || q || '%'` the searches bind. */
  function Surround(q: string): (p: string)
    ensures |p| == |q| + 2 && p[0] == '%' && p[|p| - 1] == '%'
  {
    "%" + q + "%"
  }

  lemma {:induction false} LikeAnyTail(r: string, t: string)
    requires Like(r, [])
    ensures Like("%" + r, t)
    decreases |t|
  {
    var p := "%" + r;
    assert p[1..] == r;
    if |t| > 0 {
      LikeAnyTail(r, t[1..]);
    }
  }

  /** A leading `%` lets the rest of the pattern match any suffix. */
  lemma {:induction false} LikePercentFront(r: string, t: string)
    ensures Like("%" + r, t) <==> exists i :: 0 <= i <= |t| && Like(r, t[i..])
    decreases |t|
  {
    var p := "%" + r;
    assert p[1..] == r;
    if |t| > 0 {
      LikePercentFront(r, t[1..]);
      assert Like(p, t) == (Like(r, t) || Like(p, t[1..]));
      if Like(p, t) {
        if Like(r, t) {
          assert t[0..] == t;
        } else {
          var i :| 0 <= i <= |t| - 1 && Like(r, t[1..][i..]);
          assert t[1..][i..] == t[i + 1..];
        }
      } else {
        forall i | 0 <= i <= |t| ensures !Like(r, t[i..]) {
          if i == 0 {
            assert t[0..] == t;
          } else {
            assert t[1..][i - 1..] == t[i..];
          }
        }
      }
    } else {
      assert forall i :: 0 <= i <= |t| ==> t[i..] == t;
    }
  }

  /** A wildcard-free pattern followed by `%` matches exactly the texts that
      start with it, up to ASCII case. */
  lemma {:induction false} LikeLiteralThenAny(q: string, t: string)
    requires WildcardFree(q)
    ensures Like(q + "%", t) <==> |q| <= |t| && Lower(t[..|q|]) == Lower(q)
    decreases |q|
  {
    var p := q + "%";
    if |q| == 0 {
      assert p == "%";
      LikeAnyTail([], t);
      assert "%" + [] == p;
      assert Lower(t[..0]) == Lower(q);
    } else {
      assert p[1..] == q[1..] + "%";
      assert WildcardFree(q[1..]);
      if |t| > 0 {
        LikeLiteralThenAny(q[1..], t[1..]);
        if |q| <= |t| {
          assert t[1..][..|q| - 1] == t[1..|q|];
          assert Lower(t[..|q|]) == [LowerChar(t[0])] + Lower(t[1..|q|]);
          assert Lower(q) == [LowerChar(q[0])] + Lower(q[1..]);
        }
      }
    }
  }

  /** The search fallback's pattern is a case-insensitive substring test. */
  lemma LikeSurroundContains(q: string, t: string)
    requires WildcardFree(q)
    ensures Like(Surround(q), t) <==> Contains(Lower(t), Lower(q))
  {
    assert Surround(q) == "%" + (q + "%");
    LikePercentFront(q + "%", t);
    if Like(Surround(q), t) {
      var i :| 0 <= i <= |t| && Like(q + "%", t[i..]);
      LikeAt(q, t, i);
    }
    if Contains(Lower(t), Lower(q)) {
      var i :| 0 <= i <= |Lower(t)| && OccursAt(Lower(t), Lower(q), i);
      LikeAt(q, t, i);
    }
  }

  lemma LikeAt(q: string, t: string, i: nat)
    requires WildcardFree(q) && i <= |t|
    ensures Like(q + "%", t[i..]) <==> OccursAt(Lower(t), Lower(q), i)
  {
    LikeLiteralThenAny(q, t[i..]);
    if i + |q| <= |t| {
      assert Lower(t)[i..i + |q|] == Lower(t[i..][..|q|]);
    }
  }

  /** `LIKE '%%'` holds for every non-NULL text. */
  lemma LikeEverything(t: string)
    ensures Like(Surround([]), t)
  {
    LikeSurroundContains([], t);
    assert OccursAt(Lower(t), Lower([]), 0);
  }

  // ----------------------------------------------------------- row queries

  /** `LIMIT n`: SQLite treats a negative bound as no bound at all. */
  function Limit<T>(s: seq<T>, n: int): (r: seq<T>)
    ensures n < 0 ==> r == s
    ensures n >= 0 ==> |r| == Min(n, |s|)
    ensures r == s[..|r|]
  {
    if n < 0 || n >= |s| then s else s[..n]
  }

  /** `WHERE f(row)`, rows kept in table order. */
  function Filter<T(==)>(s: seq<T>, f: T -> bool): (r: seq<T>)
    ensures IsSubsequence(r, s)
    ensures forall i :: 0 <= i < |r| ==> r[i] in s && f(r[i])
    ensures forall i :: 0 <= i < |s| && f(s[i]) ==> s[i] in r
    ensures (forall i :: 0 <= i < |s| ==> f(s[i])) ==> r == s
  {
    if |s| == 0 then []
    else
      var rest := Filter(s[1..], f);
      SubsequenceElements(rest, s[1..]);
      assert s == [s[0]] + s[1..];
      if f(s[0]) then [s[0]] + rest else rest
  }

  /** `WHERE key = ?`: the position of the first row whose key is `k`, or
      none when no row carries it. */
  function FindKey<R, K(==)>(t: seq<R>, key: R -> K, k: K): (r: Option<nat>)
    ensures r.Some? ==> r.value < |t| && key(t[r.value]) == k
    ensures r.Some? ==> forall i :: 0 <= i < r.value ==> key(t[i]) != k
    ensures r.None? ==> forall i :: 0 <= i < |t| ==> key(t[i]) != k
  {
    if |t| == 0 then None
    else if key(t[0]) == k then Some(0)
    else match FindKey(t[1..], key, k)
      case None => None
      case Some(j) => Some(j + 1)
  }

  /** The search answers exactly the first position that carries the key. */
  lemma {:induction false} FindKeyFirst<R, K>(t: seq<R>, key: R -> K, k: K, j: nat)
    requires j < |t| && key(t[j]) == k
    requires forall i :: 0 <= i < j ==> key(t[i]) != k
    ensures FindKey(t, key, k) == Some(j)
  {
    if j > 0 {
      FindKeyFirst(t[1..], key, k, j - 1);
    }
  }

  // ------------------------------------------------------------ text keys

  predicate KeysDistinct<R>(t: seq<R>, key: R -> string) {
    forall i, j :: 0 <= i < j < |t| ==> key(t[i]) != key(t[j])
  }

  /** The set of primary keys present in `t`. */
  function Keys<R>(t: seq<R>, key: R -> string): (ks: set<string>)
    ensures forall i :: 0 <= i < |t| ==> key(t[i]) in ks
    ensures forall k :: k in ks ==> exists i :: 0 <= i < |t| && key(t[i]) == k
    ensures |ks| <= |t|
    ensures KeysDistinct(t, key) ==> |ks| == |t|
  {
    if |t| == 0 then {}
    else
      var init := t[..|t| - 1];
      var ks := Keys(init, key);
      var last := key(t[|t| - 1]);
      assert forall i :: 0 <= i < |init| ==> init[i] == t[i];
      assert |ks + {last}| <= |ks| + 1;
      assert KeysDistinct(t, key) ==> KeysDistinct(init, key) && last !in ks && |ks + {last}| == |ks| + 1;
      ks + {last}
  }

  /** `INSERT OR REPLACE`: a row with the same primary key is deleted and the
      new row takes the next rowid. */
  function Upsert<R(==)>(t: seq<R>, row: R, key: R -> string): (r: seq<R>)
    ensures |r| > 0 && r[|r| - 1] == row
    ensures forall i :: 0 <= i < |r| - 1 ==> r[i] in t && key(r[i]) != key(row)
    ensures forall i :: 0 <= i < |t| && key(t[i]) != key(row) ==> t[i] in r
    ensures KeysDistinct(t, key) ==> KeysDistinct(r, key)
  {
    var kept := RemoveKey(t, key(row), key);
    if KeysDistinct(t, key) then
      KeptDistinct(t, kept, key);
      kept + [row]
    else kept + [row]
  }

  /** `DELETE ... WHERE id = k`. */
  function RemoveKey<R(==)>(t: seq<R>, k: string, key: R -> string): (r: seq<R>)
    ensures IsSubsequence(r, t)
    ensures forall i :: 0 <= i < |r| ==> r[i] in t && key(r[i]) != k
    ensures forall i :: 0 <= i < |t| && key(t[i]) != k ==> t[i] in r
  {
    if |t| == 0 then []
    else
      var rest := RemoveKey(t[1..], k, key);
      SubsequenceElements(rest, t[1..]);
      assert t == [t[0]] + t[1..];
      if key(t[0]) != k then [t[0]] + rest else rest
  }

  lemma {:induction false} KeptDistinct<R>(t: seq<R>, kept: seq<R>, key: R -> string)
    requires KeysDistinct(t, key)
    requires IsSubsequence(kept, t)
    ensures KeysDistinct(kept, key)
    decreases |t|
  {
    if |kept| > 0 {
      assert KeysDistinct(t[1..], key);
      if kept[0] == t[0] {
        KeptDistinct(t[1..], kept[1..], key);
        SubsequenceElements(kept[1..], t[1..]);
        forall j | 1 <= j < |kept| ensures key(kept[0]) != key(kept[j]) {
          assert kept[j] == kept[1..][j - 1];
          assert kept[j] in t[1..];
          var m :| 0 <= m < |t| - 1 && t[1..][m] == kept[j];
          assert t[m + 1] == kept[j];
        }
      } else {
        KeptDistinct(t[1..], kept, key);
      }
    }
  }

  lemma UpsertKeys<R>(t: seq<R>, row: R, key: R -> string)
    ensures Keys(Upsert(t, row, key), key) == Keys(t, key) + {key(row)}
  {
    var r := Upsert(t, row, key);
    forall k | k in Keys(t, key) ensures k in Keys(r, key) {
      var i :| 0 <= i < |t| && key(t[i]) == k;
      if k != key(row) {
        assert t[i] in r;
        var j :| 0 <= j < |r| && r[j] == t[i];
        assert key(r[j]) == k;
      }
    }
    forall k | k in Keys(r, key) ensures k in Keys(t, key) + {key(row)} {
      var j :| 0 <= j < |r| && key(r[j]) == k;
      if j < |r| - 1 {
        var i :| 0 <= i < |t| && t[i] == r[j];
        assert key(t[i]) == k;
      }
    }
  }

  /** A sequence of `INSERT OR REPLACE` statements, in order. */
  function UpsertAll<R(==)>(t: seq<R>, rows: seq<R>, key: R -> string): (r: seq<R>)
    ensures KeysDistinct(t, key) ==> KeysDistinct(r, key)
    decreases |rows|
  {
    if |rows| == 0 then t
    else Upsert(UpsertAll(t, rows[..|rows| - 1], key), rows[|rows| - 1], key)
  }

  /** After the statements, the keys present are the old ones plus every
      inserted one. */
  lemma {:induction false} UpsertAllKeys<R>(t: seq<R>, rows: seq<R>, key: R -> string)
    ensures Keys(UpsertAll(t, rows, key), key) == Keys(t, key) + Keys(rows, key)
    decreases |rows|
  {
    if |rows| > 0 {
      var init := rows[..|rows| - 1];
      UpsertAllKeys(t, init, key);
      UpsertKeys(UpsertAll(t, init, key), rows[|rows| - 1], key);
    }
  }

  /** The last inserted row for each key is the one that survives. */
  lemma {:induction false} UpsertAllLastWins<R>(t: seq<R>, rows: seq<R>, key: R -> string, j: nat)
    requires j < |rows|
    requires forall k :: j < k < |rows| ==> key(rows[k]) != key(rows[j])
    ensures rows[j] in UpsertAll(t, rows, key)
    decreases |rows|
  {
    var n := |rows| - 1;
    var init := rows[..n];
    var before := UpsertAll(t, init, key);
    assert UpsertAll(t, rows, key) == Upsert(before, rows[n], key);
    if j < n {
      assert forall k :: j < k < |init| ==> init[k] == rows[k];
      UpsertAllLastWins(t, init, key, j);
      var i :| 0 <= i < |before| && before[i] == rows[j];
      assert key(before[i]) != key(rows[n]);
    } else {
      var r := Upsert(before, rows[n], key);
      assert r[|r| - 1] == rows[j];
    }
  }

  /** Replacing the whole contents of a table: the result holds one row per
      distinct key of the inserted rows, however many rows share a key. */
  lemma ReplaceAllCount<R>(rows: seq<R>, key: R -> string)
    ensures KeysDistinct(UpsertAll([], rows, key), key)
    ensures |UpsertAll([], rows, key)| == |Keys(rows, key)| <= |rows|
  {
    UpsertAllKeys([], rows, key);
  }

  /** Text comparison under SQLite's default BINARY collation: code-point
      lexicographic order, a proper prefix first (UTF-8 byte order agrees
      with code-point order). */
  predicate TextLess(a: string, b: string) {
    if |a| == 0 then |b| > 0
    else if |b| == 0 then false
    else if a[0] != b[0] then a[0] < b[0]
    else TextLess(a[1..], b[1..])
  }

  lemma {:induction false} TextLessIrreflexive(a: string)
    ensures !TextLess(a, a)
  {
    if |a| > 0 {
      TextLessIrreflexive(a[1..]);
    }
  }

  lemma {:induction false} TextLessTrans(a: string, b: string, c: string)
    requires TextLess(a, b) && TextLess(b, c)
    ensures TextLess(a, c)
  {
    if |a| > 0 && |b| > 0 && |c| > 0 && a[0] == b[0] && b[0] == c[0] {
      TextLessTrans(a[1..], b[1..], c[1..]);
    }
  }

  /** Any two texts are equal or ordered one way. */
  lemma {:induction false} TextLessTotal(a: string, b: string)
    ensures a == b || TextLess(a, b) || TextLess(b, a)
  {
    if |a| > 0 && |b| > 0 && a[0] == b[0] {
      TextLessTotal(a[1..], b[1..]);
      if a[1..] == b[1..] {
        assert a == [a[0]] + a[1..] && b == [b[0]] + b[1..];
      }
    }
  }
}
