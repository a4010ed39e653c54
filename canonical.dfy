/**
  The canonical form both signers MAC: the scanner payload without its `sig`
  item, items sorted by key, rendered by `json.dumps` with compact separators.
  A payload is a decoded JSON object, so its items come in insertion order
  and its keys are unique.
 */
module Canonical {
  import opened Wrappers
  import opened Json

  type Field = (string, Scalar)

  predicate DistinctKeys(fs: seq<Field>)
  {
    forall i, j :: 0 <= i < j < |fs| ==> fs[i].0 != fs[j].0
  }

  type Payload = p: seq<Field> | DistinctKeys(p) witness []

  const SIG_KEY := "sig"

  /** `p.get(k)`. */
  function Get(p: seq<Field>, k: string): (r: Option<Scalar>)
    ensures r.Some? ==> (k, r.value) in p
    ensures r.None? <==> forall f :: f in p ==> f.0 != k
  {
    if p == [] then None else if p[0].0 == k then Some(p[0].1) else Get(p[1..], k)
  }

  /** `{k: v for k, v in p.items() if k != key}`. */
  function Without(p: seq<Field>, key: string): (r: seq<Field>)
    ensures |r| <= |p|
  {
    if p == [] then []
    else (if p[0].0 == key then [] else [p[0]]) + Without(p[1..], key)
  }

  /** `Without` keeps exactly the items whose key is not `key`. */
  lemma {:induction false} WithoutMembers(p: seq<Field>, key: string)
    ensures forall f :: f in Without(p, key) <==> f in p && f.0 != key
  {
    if p != [] {
      WithoutMembers(p[1..], key);
      assert p == [p[0]] + p[1..];
    }
  }

  lemma {:induction false} WithoutDistinct(p: seq<Field>, key: string)
    requires DistinctKeys(p)
    ensures DistinctKeys(Without(p, key))
  {
    if p != [] {
      WithoutDistinct(p[1..], key);
      WithoutMembers(p[1..], key);
      var rest := Without(p[1..], key);
      forall g | g in rest ensures g.0 != p[0].0 {
        var k :| 0 <= k < |p[1..]| && p[1..][k] == g;
        assert p[k + 1] == g;
      }
      var r := Without(p, key);
      if p[0].0 != key {
        forall i, j | 0 <= i < j < |r| ensures r[i].0 != r[j].0 {
          if i == 0 {
            assert r[j] == rest[j - 1];
            assert rest[j - 1] in rest;
          } else {
            assert r[i] == rest[i - 1] && r[j] == rest[j - 1];
          }
        }
      }
    }
  }

  lemma {:induction false} WithoutAppend(p: seq<Field>, q: seq<Field>, key: string)
    ensures Without(p + q, key) == Without(p, key) + Without(q, key)
  {
    if p == [] {
      assert p + q == q;
    } else {
      var head := if p[0].0 == key then [] else [p[0]];
      assert (p + q)[0] == p[0] && (p + q)[1..] == p[1..] + q;
      assert Without(p + q, key) == head + Without(p[1..] + q, key);
      WithoutAppend(p[1..], q, key);
      assert Without(p, key) == head + Without(p[1..], key);
    }
  }

  // ---------------------------------------------------------------------
  // Python's ordering of `str` keys: code point by code point, a proper
  // prefix first.
  // ---------------------------------------------------------------------

  predicate LexLess(a: string, b: string)
  {
    if a == [] then b != []
    else if b == [] then false
    else if a[0] != b[0] then a[0] < b[0]
    else LexLess(a[1..], b[1..])
  }

  lemma LexIrreflexive(a: string)
    ensures !LexLess(a, a)
  {
  }

  lemma LexAsymmetric(a: string, b: string)
    requires LexLess(a, b)
    ensures !LexLess(b, a)
  {
  }

  lemma {:induction false} LexTransitive(a: string, b: string, c: string)
    requires LexLess(a, b) && LexLess(b, c)
    ensures LexLess(a, c)
  {
    if a != [] && a[0] == b[0] && b[0] == c[0] {
      LexTransitive(a[1..], b[1..], c[1..]);
    }
  }

  lemma {:induction false} LexTotal(a: string, b: string)
    requires a != b
    ensures LexLess(a, b) || LexLess(b, a)
  {
    if a != [] && b != [] && a[0] == b[0] {
      assert a == [a[0]] + a[1..] && b == [b[0]] + b[1..];
      LexTotal(a[1..], b[1..]);
    }
  }

  // ---------------------------------------------------------------------
  // sort_keys=True
  // ---------------------------------------------------------------------

  predicate SortedByKey(fs: seq<Field>)
  {
    forall i, j :: 0 <= i < j < |fs| ==> LexLess(fs[i].0, fs[j].0)
  }

  function Insert(f: Field, fs: seq<Field>): (r: seq<Field>)
    ensures forall g :: g in r <==> g == f || g in fs
  {
    if fs == [] || LexLess(f.0, fs[0].0) then [f] + fs else [fs[0]] + Insert(f, fs[1..])
  }

  lemma {:induction false} InsertSorted(f: Field, fs: seq<Field>)
    requires SortedByKey(fs)
    requires forall g :: g in fs ==> g.0 != f.0
    ensures SortedByKey(Insert(f, fs))
  {
    var r := Insert(f, fs);
    if fs == [] {
    } else if LexLess(f.0, fs[0].0) {
      forall i, j | 0 <= i < j < |r| ensures LexLess(r[i].0, r[j].0) {
        if i == 0 && j > 1 {
          LexTransitive(f.0, fs[0].0, fs[j - 1].0);
        }
      }
    } else {
      LexTotal(f.0, fs[0].0);
      var rest := Insert(f, fs[1..]);
      InsertSorted(f, fs[1..]);
      forall j | 0 <= j < |rest| ensures LexLess(fs[0].0, rest[j].0) {
        assert rest[j] in rest;
        if rest[j] != f {
          var k :| 0 <= k < |fs[1..]| && fs[1..][k] == rest[j];
          assert fs[k + 1] == rest[j];
        }
      }
      forall i, j | 0 <= i < j < |r| ensures LexLess(r[i].0, r[j].0) {
        if i == 0 {
          assert r[j] == rest[j - 1];
        } else {
          assert r[i] == rest[i - 1] && r[j] == rest[j - 1];
        }
      }
    }
  }

  /** The items of `fs` in increasing key order (insertion sort; with
      unique keys any correct sort gives the same sequence, by
      SortedUnique). */
  function SortByKey(fs: seq<Field>): (r: seq<Field>)
    ensures forall g :: g in r <==> g in fs
  {
    if fs == [] then [] else Insert(fs[0], SortByKey(fs[1..]))
  }

  lemma {:induction false} SortByKeySorted(fs: seq<Field>)
    requires DistinctKeys(fs)
    ensures SortedByKey(SortByKey(fs))
  {
    if fs != [] {
      SortByKeySorted(fs[1..]);
      forall g | g in SortByKey(fs[1..]) ensures g.0 != fs[0].0 {
        var k :| 0 <= k < |fs[1..]| && fs[1..][k] == g;
        assert fs[k + 1] == g;
      }
      InsertSorted(fs[0], SortByKey(fs[1..]));
    }
  }

  /** A key-sorted sequence is determined by its elements. */
  lemma {:induction false} SortedUnique(a: seq<Field>, b: seq<Field>)
    requires SortedByKey(a) && SortedByKey(b)
    requires forall f :: f in a <==> f in b
    ensures a == b
  {
    assert |a| > 0 ==> a[0] in b;
    assert |b| > 0 ==> b[0] in a;
    if a == [] {
      assert b == [];
    } else {
      assert b != [];
      var i :| 0 <= i < |a| && a[i] == b[0];
      var j :| 0 <= j < |b| && b[j] == a[0];
      if i > 0 && j > 0 {
        LexAsymmetric(a[0].0, b[0].0);
      }
      assert a[0] == b[0];
      forall f ensures f in a[1..] <==> f in b[1..] {
        SortedTail(a, f);
        SortedTail(b, f);
      }
      SortedUnique(a[1..], b[1..]);
      assert a == [a[0]] + a[1..] && b == [b[0]] + b[1..];
    }
  }

  lemma SortedTail(a: seq<Field>, f: Field)
    requires SortedByKey(a) && a != []
    ensures f in a[1..] <==> f in a && f != a[0]
  {
    if f in a[1..] {
      var k :| 1 <= k < |a| && a[k] == f;
      if f == a[0] {
        assert LexLess(a[0].0, a[k].0);
        LexIrreflexive(a[0].0);
      }
    }
    if f in a && f != a[0] {
      var k :| 0 <= k < |a| && a[k] == f;
      assert a[1..][k - 1] == f;
    }
  }

  // ---------------------------------------------------------------------
  // The canonical form and its text
  // ---------------------------------------------------------------------

  /** The items the MAC covers: every item except `sig`. */
  function SignedFields(p: Payload): (r: set<Field>)
    ensures forall f :: f in r <==> f in p && f.0 != SIG_KEY
  {
    set f | f in p && f.0 != SIG_KEY
  }

  /** The object `json.dumps(..., sort_keys=True)` walks: the items other
      than `sig`, in increasing key order. */
  function Canonical(p: Payload): (r: seq<Field>)
    ensures SortedByKey(r)
    ensures forall f :: f in r <==> f in SignedFields(p)
  {
    var stripped := Without(p, SIG_KEY);
    WithoutDistinct(p, SIG_KEY);
    WithoutMembers(p, SIG_KEY);
    SortByKeySorted(stripped);
    SortByKey(stripped)
  }

  /** `json.dumps(obj, separators=(',', ':'), sort_keys=True)`. */
  function CanonicalText(p: Payload): (r: string)
    ensures IsPrintableAscii(r)
    ensures ParseObject(r, ",", ":") == Some(Canonical(p))
  {
    ParseEncodeObject(Canonical(p), ",", ":");
    EncodeObject(Canonical(p), ",", ":")
  }

  /** Two payloads share a canonical form exactly when they hold the same
      items apart from `sig`, whatever order the items arrive in. */
  lemma CanonicalDeterminedBySignedFields(p1: Payload, p2: Payload)
    ensures Canonical(p1) == Canonical(p2) <==> SignedFields(p1) == SignedFields(p2)
  {
    if SignedFields(p1) == SignedFields(p2) {
      SortedUnique(Canonical(p1), Canonical(p2));
    }
    if Canonical(p1) == Canonical(p2) {
      assert forall f :: f in SignedFields(p1) <==> f in SignedFields(p2);
    }
  }

  /** The text that is signed: two payloads render the same canonical
      text exactly when they hold the same items apart from `sig`. Any
      change to a signed item changes the text. */
  lemma CanonicalTextDeterminedBySignedFields(p1: Payload, p2: Payload)
    ensures CanonicalText(p1) == CanonicalText(p2) <==> SignedFields(p1) == SignedFields(p2)
  {
    CanonicalDeterminedBySignedFields(p1, p2);
    if CanonicalText(p1) == CanonicalText(p2) {
      EncodeObjectInjective(Canonical(p1), Canonical(p2), ",", ":");
    }
  }

  // ---------------------------------------------------------------------
  // payload['sig'] = sig
  // ---------------------------------------------------------------------

  function Replace(p: seq<Field>, key: string, v: Scalar): (r: seq<Field>)
    ensures |r| == |p|
    ensures forall i :: 0 <= i < |p| ==> r[i].0 == p[i].0
    ensures forall i :: 0 <= i < |p| ==> r[i].1 == if p[i].0 == key then v else p[i].1
  {
    if p == [] then [] else [(p[0].0, if p[0].0 == key then v else p[0].1)] + Replace(p[1..], key, v)
  }

  /** Python's `payload['sig'] = sig`: an existing `sig` item keeps its
      place and takes the new value; otherwise the item is appended. */
  function AttachSig(p: Payload, sig: string): (r: Payload)
    ensures Get(r, SIG_KEY) == Some(Str(sig))
    ensures Without(r, SIG_KEY) == Without(p, SIG_KEY)
    ensures SignedFields(r) == SignedFields(p)
  {
    var v: Scalar := Str(sig);
    if Get(p, SIG_KEY).Some? then
      ReplaceKeepsOthers(p, SIG_KEY, v);
      ReplaceGet(p, SIG_KEY, v);
      var r: Payload := Replace(p, SIG_KEY, v);
      SignedFromWithout(r, p);
      r
    else
      AppendDistinct(p, (SIG_KEY, v));
      WithoutAppend(p, [(SIG_KEY, v)], SIG_KEY);
      GetAppend(p, SIG_KEY, v);
      var r: Payload := p + [(SIG_KEY, v)];
      SignedFromWithout(r, p);
      r
  }

  lemma SignedFromWithout(r: Payload, p: Payload)
    requires Without(r, SIG_KEY) == Without(p, SIG_KEY)
    ensures SignedFields(r) == SignedFields(p)
  {
    WithoutMembers(r, SIG_KEY);
    WithoutMembers(p, SIG_KEY);
    assert forall f :: f in SignedFields(r) <==> f in SignedFields(p);
  }

  lemma AppendDistinct(p: seq<Field>, x: Field)
    requires DistinctKeys(p)
    requires forall f :: f in p ==> f.0 != x.0
    ensures DistinctKeys(p + [x])
  {
    var r := p + [x];
    forall i, j | 0 <= i < j < |r| ensures r[i].0 != r[j].0 {
      if j == |p| {
        assert r[i] == p[i] && p[i] in p;
      } else {
        assert r[i] == p[i] && r[j] == p[j];
      }
    }
  }

  lemma {:induction false} ReplaceKeepsOthers(p: seq<Field>, key: string, v: Scalar)
    ensures Without(Replace(p, key, v), key) == Without(p, key)
  {
    if p != [] {
      ReplaceKeepsOthers(p[1..], key, v);
      assert Replace(p, key, v)[1..] == Replace(p[1..], key, v);
    }
  }

  lemma {:induction false} ReplaceGet(p: seq<Field>, key: string, v: Scalar)
    requires Get(p, key).Some?
    ensures Get(Replace(p, key, v), key) == Some(v)
  {
    if p[0].0 != key {
      ReplaceGet(p[1..], key, v);
      assert Replace(p, key, v)[1..] == Replace(p[1..], key, v);
    }
  }

  lemma {:induction false} GetAppend(p: seq<Field>, key: string, v: Scalar)
    requires Get(p, key).None?
    ensures Get(p + [(key, v)], key) == Some(v)
  {
    if p != [] {
      GetAppend(p[1..], key, v);
      assert (p + [(key, v)])[1..] == p[1..] + [(key, v)];
    }
  }

  /** Writing back the value a key already holds changes nothing. */
  lemma ReplaceSame(p: Payload, key: string, v: Scalar)
    requires Get(p, key) == Some(v)
    ensures Replace(p, key, v) == p
  {
    var r := Replace(p, key, v);
    forall i | 0 <= i < |p| ensures r[i] == p[i] {
      if p[i].0 == key {
        var k :| 0 <= k < |p| && p[k] == (key, v);
        assert k == i;
      }
    }
  }

  /** Signing again with the same signature gives back the same payload. */
  lemma AttachSigIdempotent(p: Payload, sig: string)
    ensures AttachSig(AttachSig(p, sig), sig) == AttachSig(p, sig)
  {
    ReplaceSame(AttachSig(p, sig), SIG_KEY, Str(sig));
  }
}
