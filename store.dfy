/** The Redis database the service keeps its cache in, reduced to the commands the source
    issues: hashes (HSET, HGET, HGETALL, HEXISTS, HINCRBY), sorted sets (ZADD, ZRANGE by
    score, forwards and in reverse with a limit), plain strings (SET, GET), EXISTS and the
    key space SCAN walks.

    A sorted set is a map from member to score. Redis orders its members by score and
    members of equal score by their bytes; `Ascending` lists them in that order. */
module Store {
  import opened Common
  import opened Text
  import opened Errors

  type Hash = map<string, string>
  type ZSet = map<string, int>

  // ---------------------------------------------------------------------------------
  // The order of sorted-set members

  /** Lexicographic order of strings, character by character, a proper prefix first. */
  predicate LexLess(a: string, b: string)
    decreases |a|
  {
    if a == [] then b != []
    else if b == [] then false
    else if a[0] != b[0] then a[0] < b[0]
    else LexLess(a[1..], b[1..])
  }

  lemma {:induction false} LexAsymmetric(a: string, b: string)
    ensures LexLess(a, b) ==> !LexLess(b, a)
    decreases |a|
  {
    if a != [] && b != [] && a[0] == b[0] {
      LexAsymmetric(a[1..], b[1..]);
    }
  }

  lemma {:induction false} LexTotal(a: string, b: string)
    ensures a == b || LexLess(a, b) || LexLess(b, a)
    decreases |a|
  {
    if a != [] && b != [] && a[0] == b[0] {
      LexTotal(a[1..], b[1..]);
      if a[1..] == b[1..] {
        assert a == [a[0]] + a[1..] && b == [b[0]] + b[1..];
      }
    }
  }

  lemma {:induction false} LexTransitive(a: string, b: string, c: string)
    requires LexLess(a, b) && LexLess(b, c)
    ensures LexLess(a, c)
    decreases |a|
  {
    if a != [] && a[0] == b[0] && b[0] == c[0] {
      LexTransitive(a[1..], b[1..], c[1..]);
    }
  }

  /** Member `a` of score `sa` comes before member `b` of score `sb` in a sorted set. */
  predicate Precedes(a: string, sa: int, b: string, sb: int) {
    sa < sb || (sa == sb && LexLess(a, b))
  }

  lemma PrecedesAsymmetric(a: string, sa: int, b: string, sb: int)
    ensures Precedes(a, sa, b, sb) ==> !Precedes(b, sb, a, sa)
  {
    LexAsymmetric(a, b);
  }

  lemma PrecedesTotal(a: string, sa: int, b: string, sb: int)
    requires a != b
    ensures Precedes(a, sa, b, sb) || Precedes(b, sb, a, sa)
  {
    LexTotal(a, b);
  }

  lemma PrecedesTransitive(a: string, sa: int, b: string, sb: int, c: string, sc: int)
    requires Precedes(a, sa, b, sb) && Precedes(b, sb, c, sc)
    ensures Precedes(a, sa, c, sc)
  {
    if sa == sb == sc {
      LexTransitive(a, b, c);
    }
  }

  /** `m` is the first member of the sorted set. */
  predicate IsLeast(z: ZSet, m: string) {
    m in z && forall x :: x in z && x != m ==> Precedes(m, z[m], x, z[x])
  }

  lemma {:induction false} LeastExists(z: ZSet)
    requires |z| > 0
    ensures exists m :: IsLeast(z, m)
    decreases |z|
  {
    var k :| k in z;
    var rest := z - {k};
    assert |rest| == |z| - 1 by {
      assert rest.Keys == z.Keys - {k};
    }
    if |rest| == 0 {
      assert z.Keys == {k} by {
        assert rest.Keys == {};
      }
      assert IsLeast(z, k);
    } else {
      LeastExists(rest);
      var m :| IsLeast(rest, m);
      PrecedesTotal(m, z[m], k, z[k]);
      if Precedes(m, z[m], k, z[k]) {
        forall x | x in z && x != m
          ensures Precedes(m, z[m], x, z[x])
        {
          if x != k {
            assert x in rest;
          }
        }
        assert IsLeast(z, m);
      } else {
        forall x | x in z && x != k
          ensures Precedes(k, z[k], x, z[x])
        {
          if x != m {
            assert x in rest;
            PrecedesTransitive(k, z[k], m, z[m], x, z[x]);
          }
        }
        assert IsLeast(z, k);
      }
    }
  }

  lemma LeastUnique(z: ZSet)
    ensures forall m1, m2 :: IsLeast(z, m1) && IsLeast(z, m2) ==> m1 == m2
  {
    forall m1, m2 | IsLeast(z, m1) && IsLeast(z, m2)
      ensures m1 == m2
    {
      PrecedesAsymmetric(m1, z[m1], m2, z[m2]);
    }
  }

  /** The members of a sorted set in Redis's order: ascending score, then ascending bytes. */
  function Ascending(z: ZSet): (r: seq<string>)
    ensures |r| == |z|
    ensures forall m :: m in r <==> m in z
    ensures forall i, j :: 0 <= i < j < |r| ==> Precedes(r[i], z[r[i]], r[j], z[r[j]])
    decreases |z|
  {
    if |z| == 0 then []
    else
      LeastExists(z);
      LeastUnique(z);
      var m :| IsLeast(z, m);
      var rest := z - {m};
      assert |rest| == |z| - 1 by {
        assert rest.Keys == z.Keys - {m};
      }
      var tail := Ascending(rest);
      AscendingCons(z, m, tail);
      [m] + tail
  }

  lemma AscendingCons(z: ZSet, m: string, tail: seq<string>)
    requires IsLeast(z, m)
    requires forall x :: x in tail <==> x in z - {m}
    requires forall i, j :: 0 <= i < j < |tail| ==>
      tail[i] in z - {m} && tail[j] in z - {m} &&
      Precedes(tail[i], (z - {m})[tail[i]], tail[j], (z - {m})[tail[j]])
    ensures forall x :: x in [m] + tail <==> x in z
    ensures forall i, j :: 0 <= i < j < |[m] + tail| ==>
      ([m] + tail)[i] in z && ([m] + tail)[j] in z &&
      Precedes(([m] + tail)[i], z[([m] + tail)[i]], ([m] + tail)[j], z[([m] + tail)[j]])
  {
    var r := [m] + tail;
    forall i, j | 0 <= i < j < |r|
      ensures r[i] in z && r[j] in z && Precedes(r[i], z[r[i]], r[j], z[r[j]])
    {
      assert r[j] == tail[j - 1] && r[j] in tail;
      if i > 0 {
        assert r[i] == tail[i - 1];
      }
    }
  }

  /** Every member of `ms` is in the set, and the members appear in the set's order. */
  predicate Ordered(z: ZSet, ms: seq<string>) {
    forall i, j :: 0 <= i < j < |ms| ==> ms[i] in z && ms[j] in z && Precedes(ms[i], z[ms[i]], ms[j], z[ms[j]])
  }

  /** Every member of `ms` is in the set, and the members appear in the reverse of the set's order. */
  predicate OrderedDown(z: ZSet, ms: seq<string>) {
    forall i, j :: 0 <= i < j < |ms| ==> ms[i] in z && ms[j] in z && Precedes(ms[j], z[ms[j]], ms[i], z[ms[i]])
  }

  predicate InScoreRange(score: int, lo: int, hi: Option<int>) {
    lo <= score && (hi.None? || score < hi.value)
  }

  /** The members of `ms` whose score lies in [lo, hi) (no upper bound when `hi` is None),
      kept in the order of `ms`. */
  function ScoreRange(z: ZSet, ms: seq<string>, lo: int, hi: Option<int>): (r: seq<string>)
    requires forall m :: m in ms ==> m in z
    ensures forall m :: m in r <==> m in ms && InScoreRange(z[m], lo, hi)
    ensures Ordered(z, ms) ==> Ordered(z, r)
    ensures OrderedDown(z, ms) ==> OrderedDown(z, r)
    decreases |ms|
  {
    if ms == [] then []
    else
      var rest := ScoreRange(z, ms[1..], lo, hi);
      assert forall m :: m in ms <==> m == ms[0] || m in ms[1..];
      assert Ordered(z, ms) ==> Ordered(z, ms[1..]);
      assert OrderedDown(z, ms) ==> OrderedDown(z, ms[1..]);
      if InScoreRange(z[ms[0]], lo, hi) then
        ScoreRangeCons(z, ms, rest);
        [ms[0]] + rest
      else rest
  }

  lemma ScoreRangeCons(z: ZSet, ms: seq<string>, rest: seq<string>)
    requires ms != [] && forall m :: m in ms ==> m in z
    requires forall m :: m in rest ==> m in ms[1..]
    requires Ordered(z, ms) ==> Ordered(z, rest)
    requires OrderedDown(z, ms) ==> OrderedDown(z, rest)
    ensures Ordered(z, ms) ==> Ordered(z, [ms[0]] + rest)
    ensures OrderedDown(z, ms) ==> OrderedDown(z, [ms[0]] + rest)
  {
    var r := [ms[0]] + rest;
    forall j | 0 < j < |r|
      ensures exists k :: 0 < k < |ms| && r[j] == ms[k]
    {
      assert r[j] == rest[j - 1] && rest[j - 1] in rest;
      assert r[j] in ms[1..];
      var k' :| 0 <= k' < |ms[1..]| && ms[1..][k'] == r[j];
      assert ms[k' + 1] == r[j];
    }
    if Ordered(z, ms) {
      forall i, j | 0 <= i < j < |r|
        ensures r[i] in z && r[j] in z && Precedes(r[i], z[r[i]], r[j], z[r[j]])
      {
        if i > 0 {
          assert r[i] == rest[i - 1] && r[j] == rest[j - 1];
        } else {
          var k :| 0 < k < |ms| && r[j] == ms[k];
        }
      }
    }
    if OrderedDown(z, ms) {
      forall i, j | 0 <= i < j < |r|
        ensures r[i] in z && r[j] in z && Precedes(r[j], z[r[j]], r[i], z[r[i]])
      {
        if i > 0 {
          assert r[i] == rest[i - 1] && r[j] == rest[j - 1];
        } else {
          var k :| 0 < k < |ms| && r[j] == ms[k];
        }
      }
    }
  }

  function Reverse(s: seq<string>): (r: seq<string>)
    ensures |r| == |s| && forall i :: 0 <= i < |s| ==> r[i] == s[|s| - 1 - i]
    decreases |s|
  {
    if s == [] then [] else Reverse(s[1..]) + [s[0]]
  }

  /** `ZRANGE key lo (hi BYSCORE`: the members scored in [lo, hi), in the set's order. */
  function RangeByScore(z: ZSet, lo: int, hi: Option<int>): (r: seq<string>)
    ensures forall m :: m in r <==> m in z && InScoreRange(z[m], lo, hi)
    ensures Ordered(z, r)
  {
    var all := Ascending(z);
    assert Ordered(z, all);
    ScoreRange(z, all, lo, hi)
  }

  /** The members of a sorted set from the last to the first. */
  function Descending(z: ZSet): (r: seq<string>)
    ensures |r| == |z|
    ensures forall m :: m in r <==> m in z
    ensures OrderedDown(z, r)
  {
    var up := Ascending(z);
    var r := Reverse(up);
    ReverseOrdered(z, up, r);
    r
  }

  lemma ReverseOrdered(z: ZSet, up: seq<string>, r: seq<string>)
    requires Ordered(z, up) && forall m :: m in up <==> m in z
    requires |r| == |up| && forall i :: 0 <= i < |up| ==> r[i] == up[|up| - 1 - i]
    ensures forall m :: m in r <==> m in z
    ensures OrderedDown(z, r)
  {
    forall m | m in r
      ensures m in z
    {
      var i :| 0 <= i < |r| && r[i] == m;
      assert up[|up| - 1 - i] == m;
    }
    forall m | m in z
      ensures m in r
    {
      var i :| 0 <= i < |up| && up[i] == m;
      assert r[|up| - 1 - i] == m;
    }
    forall i, j | 0 <= i < j < |r|
      ensures r[i] in z && r[j] in z && Precedes(r[j], z[r[j]], r[i], z[r[i]])
    {
      assert r[i] == up[|up| - 1 - i] && r[j] == up[|up| - 1 - j];
    }
  }

  /** `ZRANGE key +inf lo BYSCORE REV LIMIT 0 n`: the first `n` members scored at least `lo`,
      from the highest down. */
  function RevRangeByScore(z: ZSet, lo: int, n: nat): (r: seq<string>)
    ensures |r| <= n
    ensures forall m :: m in r ==> m in z && lo <= z[m]
    ensures OrderedDown(z, r)
    ensures forall m :: m in z && lo <= z[m] && m !in r ==>
      |r| == n && (n == 0 || Precedes(m, z[m], r[n - 1], z[r[n - 1]]))
  {
    var ranked := ScoreRange(z, Descending(z), lo, None);
    if |ranked| <= n then ranked
    else
      PrefixOrderedDown(z, ranked, lo, n);
      ranked[..n]
  }

  lemma PrefixOrderedDown(z: ZSet, s: seq<string>, lo: int, n: nat)
    requires n <= |s| && OrderedDown(z, s)
    requires forall m :: m in s ==> m in z && lo <= z[m]
    ensures forall m :: m in s[..n] ==> m in z && lo <= z[m]
    ensures OrderedDown(z, s[..n])
    ensures forall m :: m in s && m !in s[..n] ==> n == 0 || Precedes(m, z[m], s[n - 1], z[s[n - 1]])
  {
    forall m | m in s && m !in s[..n] && n > 0
      ensures Precedes(m, z[m], s[n - 1], z[s[n - 1]])
    {
      var k :| 0 <= k < |s| && s[k] == m;
    }
    forall m | m in s[..n]
      ensures m in s
    {
      var i :| 0 <= i < n && s[..n][i] == m;
      assert s[i] == m;
    }
  }

  // ---------------------------------------------------------------------------------
  // Integers as Redis reads and writes them

  /** Redis integers are signed 64-bit. */
  const I64_MIN: int := -0x8000_0000_0000_0000
  const I64_MAX: int := 0x7fff_ffff_ffff_ffff

  /** Redis's strict reading of a value as a 64-bit integer: an optional '-', then digits with
      no leading zero ("0" itself allowed, "-0" not), within the signed 64-bit range. */
  function ParseRedisInt(s: string): (r: Option<int>)
    ensures r.Some? ==> I64_MIN <= r.value <= I64_MAX
  {
    if |s| > 1 && s[0] == '-' && s[1] != '0' && AllDigits(s[1..]) && DigitsValue(s[1..]) <= -I64_MIN
    then Some(0 - DigitsValue(s[1..]) as int)
    else match ParseCanonical(s)
      case Some(v) => Some(v as int)
      case None => None
  }

  /** The text Redis writes for an integer. */
  function IntToString(i: int): string {
    if i < 0 then "-" + NatToString(-i) else NatToString(i)
  }

  lemma ParseIntToString(i: int)
    requires I64_MIN <= i <= I64_MAX
    ensures ParseRedisInt(IntToString(i)) == Some(i)
  {
    if i < 0 {
      var t := NatToString(-i);
      assert IntToString(i)[1..] == t;
      DigitsValueOfNatToString(-i);
    } else {
      ParseCanonicalNatToString(i);
    }
  }

  /** A decimal above the signed 64-bit range is not a Redis integer. */
  lemma ParseRedisIntOverflow(n: nat)
    requires n > I64_MAX
    ensures ParseRedisInt(NatToString(n)) == None
  {
    DigitsValueOfNatToString(n);
    assert IsDigit(NatToString(n)[0]);
  }

  // ---------------------------------------------------------------------------------
  // The database

  /** The database: hashes, sorted sets and strings, each by key. Redis keeps one key space;
      the model keeps three maps and the key space is their union. */
  datatype Db = Db(hashes: map<string, Hash>, zsets: map<string, ZSet>, strings: map<string, string>)

  /** The empty database. */
  const EmptyDb := Db(map[], map[], map[])

  /** `HGETALL`: the fields of the hash, none when the key is absent. */
  function HashAt(db: Db, key: string): (h: Hash)
    ensures key !in db.hashes ==> h == map[]
  {
    if key in db.hashes then db.hashes[key] else map[]
  }

  /** `HGET`: the field's value, if the hash has that field. */
  function FieldAt(db: Db, key: string, field: string): (v: Option<string>)
    ensures v.Some? <==> field in HashAt(db, key)
    ensures v.Some? ==> v.value == HashAt(db, key)[field]
  {
    var h := HashAt(db, key);
    if field in h then Some(h[field]) else None
  }

  /** `HSET key f1 v1 f2 v2 ...`: the given fields are set, the hash's other fields and every
      other key are left as they were. */
  function HSet(db: Db, key: string, fields: Hash): (r: Db)
    ensures r.zsets == db.zsets && r.strings == db.strings
    ensures key in r.hashes && forall k :: k in r.hashes && k != key ==> k in db.hashes && r.hashes[k] == db.hashes[k]
    ensures forall k :: k in db.hashes ==> k in r.hashes
    ensures forall f :: f in r.hashes[key] <==> f in fields || f in HashAt(db, key)
    ensures forall f :: f in r.hashes[key] ==> r.hashes[key][f] == if f in fields then fields[f] else HashAt(db, key)[f]
  {
    db.(hashes := db.hashes[key := HashAt(db, key) + fields])
  }

  /** `HSET key field value` for a single field. */
  function HSetField(db: Db, key: string, field: string, value: string): (r: Db)
  {
    db.(hashes := db.hashes[key := HashAt(db, key)[field := value]])
  }

  /** Setting one field is `HSET` with a one-field hash. */
  lemma HSetFieldIsHSet(db: Db, key: string, field: string, value: string)
    ensures HSetField(db, key, field, value) == HSet(db, key, map[field := value])
  {
    assert HashAt(db, key)[field := value] == HashAt(db, key) + map[field := value];
  }

  /** `HINCRBY key field increment`: a missing field counts as 0; a value that is not an integer, or a
      sum outside the 64-bit range, is an error and changes nothing. */
  function HIncrBy(db: Db, key: string, field: string, increment: int): (r: Result<Db, CacheError>)
    ensures r.Ok? ==>
      var old_value := if field in HashAt(db, key) then ParseRedisInt(HashAt(db, key)[field]) else Some(0);
      old_value.Some? && r.value == HSetField(db, key, field, IntToString(old_value.value + increment))
    ensures r.Err? <==>
      (field in HashAt(db, key) && ParseRedisInt(HashAt(db, key)[field]).None?) ||
      (var v := if field in HashAt(db, key) then ParseRedisInt(HashAt(db, key)[field]) else Some(0);
       v.Some? && !(I64_MIN <= v.value + increment <= I64_MAX))
  {
    var current := if field in HashAt(db, key) then ParseRedisInt(HashAt(db, key)[field]) else Some(0);
    match current
    case None => Err(RedisCMDError("ERR hash value is not an integer"))
    case Some(v) =>
      if I64_MIN <= v + increment <= I64_MAX then Ok(HSetField(db, key, field, IntToString(v + increment)))
      else Err(RedisCMDError("ERR increment or decrement would overflow"))
  }

  /** The sorted set at a key, empty when the key is absent. */
  function ZSetAt(db: Db, key: string): (z: ZSet)
    ensures key !in db.zsets ==> z == map[]
  {
    if key in db.zsets then db.zsets[key] else map[]
  }

  /** `ZADD key score member`: the member gets the score (added if new); nothing else changes. */
  function ZAdd(db: Db, key: string, score: int, member: string): (r: Db)
    ensures r.hashes == db.hashes && r.strings == db.strings
    ensures key in r.zsets && forall k :: k in r.zsets && k != key ==> k in db.zsets && r.zsets[k] == db.zsets[k]
    ensures forall k :: k in db.zsets ==> k in r.zsets
    ensures forall m :: m in r.zsets[key] <==> m == member || m in ZSetAt(db, key)
    ensures r.zsets[key][member] == score
    ensures forall m :: m in r.zsets[key] && m != member ==> r.zsets[key][m] == ZSetAt(db, key)[m]
  {
    db.(zsets := db.zsets[key := ZSetAt(db, key)[member := score]])
  }

  /** `SET key value`. */
  function SetString(db: Db, key: string, value: string): (r: Db)
    ensures r.hashes == db.hashes && r.zsets == db.zsets
    ensures key in r.strings && r.strings[key] == value
    ensures forall k :: k != key ==> (k in r.strings <==> k in db.strings) && (k in r.strings ==> r.strings[k] == db.strings[k])
  {
    db.(strings := db.strings[key := value])
  }

  /** `EXISTS key` (and the existence test the handlers make before building a board). */
  predicate Exists(db: Db, key: string) {
    key in db.hashes || key in db.zsets || key in db.strings
  }

  /** The keys SCAN walks. */
  function KeySpace(db: Db): set<string> {
    db.hashes.Keys + db.zsets.Keys + db.strings.Keys
  }

  /** A database as Redis can hold it: no key of two types, no empty hash and no empty sorted
      set (Redis deletes a key whose last field or member is removed). */
  predicate Valid(db: Db) {
    (forall k :: k in db.hashes ==> k !in db.zsets && k !in db.strings && |db.hashes[k]| > 0) &&
    (forall k :: k in db.zsets ==> k !in db.strings && |db.zsets[k]| > 0)
  }

  // ---------------------------------------------------------------------------------
  // The connection the source issues its commands on

  /** The Redis database as the program sees it through its connection: each command changes
      or reads the three key spaces as the function of the same name says. */
  class Cache {
    var hashes: map<string, Hash>
    var zsets: map<string, ZSet>
    var strings: map<string, string>

    function State(): Db
      reads this
    {
      Db(hashes, zsets, strings)
    }

    constructor(db: Db)
      ensures State() == db
    {
      hashes, zsets, strings := db.hashes, db.zsets, db.strings;
    }

    method HSetFields(key: string, fields: Hash)
      modifies this
      ensures State() == HSet(old(State()), key, fields)
    {
      hashes := hashes[key := HashAt(State(), key) + fields];
    }

    method SetField(key: string, field: string, value: string)
      modifies this
      ensures State() == HSetField(old(State()), key, field, value)
    {
      hashes := hashes[key := HashAt(State(), key)[field := value]];
    }

    method HGet(key: string, field: string) returns (v: Option<string>)
      ensures v == FieldAt(State(), key, field)
    {
      if key in hashes && field in hashes[key] {
        v := Some(hashes[key][field]);
      } else {
        v := None;
      }
    }

    method HGetAll(key: string) returns (h: Hash)
      ensures h == HashAt(State(), key)
    {
      h := if key in hashes then hashes[key] else map[];
    }

    method HExists(key: string, field: string) returns (b: bool)
      ensures b <==> field in HashAt(State(), key)
    {
      b := key in hashes && field in hashes[key];
    }

    method HIncr(key: string, field: string, increment: int) returns (r: Result<(), CacheError>)
      modifies this
      ensures HIncrBy(old(State()), key, field, increment).Ok? ==> r.Ok? && State() == HIncrBy(old(State()), key, field, increment).value
      ensures HIncrBy(old(State()), key, field, increment).Err? ==>
        r == Err(HIncrBy(old(State()), key, field, increment).error) && State() == old(State())
    {
      match HIncrBy(State(), key, field, increment)
      case Ok(db) =>
        hashes := db.hashes;
        r := Ok(());
      case Err(e) =>
        r := Err(e);
    }

    method ZAddMember(key: string, score: int, member: string)
      modifies this
      ensures State() == ZAdd(old(State()), key, score, member)
    {
      zsets := zsets[key := ZSetAt(State(), key)[member := score]];
    }

    method ZRangeByScore(key: string, lo: int, hi: Option<int>) returns (ms: seq<string>)
      ensures ms == RangeByScore(ZSetAt(State(), key), lo, hi)
    {
      ms := RangeByScore(ZSetAt(State(), key), lo, hi);
    }

    /** `ZRANGE key -inf +inf BYSCORE`: every member, lowest first. */
    method ZRangeAll(key: string) returns (ms: seq<string>)
      ensures ms == Ascending(ZSetAt(State(), key))
    {
      ms := Ascending(ZSetAt(State(), key));
    }

    method ZRevRangeByScore(key: string, lo: int, n: nat) returns (ms: seq<string>)
      ensures ms == RevRangeByScore(ZSetAt(State(), key), lo, n)
    {
      ms := RevRangeByScore(ZSetAt(State(), key), lo, n);
    }

    method Set(key: string, value: string)
      modifies this
      ensures State() == SetString(old(State()), key, value)
    {
      strings := strings[key := value];
    }

    method Get(key: string) returns (v: Option<string>)
      ensures v.Some? <==> key in State().strings
      ensures v.Some? ==> v.value == State().strings[key]
    {
      v := if key in strings then Some(strings[key]) else None;
    }

    method KeyExists(key: string) returns (b: bool)
      ensures b <==> Exists(State(), key)
    {
      b := key in hashes || key in zsets || key in strings;
    }
  }
}
