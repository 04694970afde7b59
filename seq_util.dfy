/** Sequence helpers shared by the loaders: first-occurrence deduplication,
    last-write-wins folding of key/value pairs, joining with a separator and
    decimal rendering of counts. */
module SeqUtil {

  /** No element occurs twice in s. */
  predicate NoDup<T(==)>(s: seq<T>)
  {
    forall i, j :: 0 <= i < j < |s| ==> s[i] != s[j]
  }

  /** The elements of s, as a set. */
  function Elements<T(==)>(s: seq<T>): set<T>
  {
    set x | x in s
  }

  /** The keys of a sequence of key/value pairs, in order. */
  function KeysOf<K, V>(s: seq<(K, V)>): seq<K>
  {
    seq(|s|, i requires 0 <= i < |s| => s[i].0)
  }

  lemma KeysOfAppend<K, V>(s: seq<(K, V)>, t: seq<(K, V)>)
    ensures KeysOf(s + t) == KeysOf(s) + KeysOf(t)
  {
  }

  /** A prefix one longer is the prefix and the next element. */
  lemma SliceSnoc<T>(s: seq<T>, j: nat)
    requires j < |s|
    ensures s[..j + 1] == s[..j] + [s[j]]
  {
  }

  /** The same, after a fixed front. */
  lemma AppendSliceSnoc<T>(front: seq<T>, s: seq<T>, j: nat)
    requires j < |s|
    ensures front + s[..j + 1] == (front + s[..j]) + [s[j]]
  {
    SliceSnoc(s, j);
  }

  /** Index of the first occurrence of x in s. */
  function FirstIndex<T(==)>(s: seq<T>, x: T): (i: nat)
    requires x in s
    ensures i < |s| && s[i] == x
    ensures forall j :: 0 <= j < i ==> s[j] != x
  {
    if s[0] == x then 0 else 1 + FirstIndex(s[1..], x)
  }

  lemma FirstIndexAppend<T>(a: seq<T>, b: seq<T>, x: T)
    requires x in a
    ensures FirstIndex(a + b, x) == FirstIndex(a, x)
  {
    var i, k := FirstIndex(a, x), FirstIndex(a + b, x);
    assert (a + b)[i] == x;
    assert k < |a| ==> a[k] == x;
  }

  /** The elements of s, each kept at its first occurrence: what appending
      to a list guarded by a "seen" set produces. */
  function Distinct<T(==)>(s: seq<T>): seq<T>
  {
    if s == [] then []
    else
      var d := Distinct(s[..|s| - 1]);
      if s[|s| - 1] in d then d else d + [s[|s| - 1]]
  }

  /** Distinct drops duplicates and nothing else. */
  lemma {:induction false} DistinctSpec<T(!new)>(s: seq<T>)
    ensures NoDup(Distinct(s))
    ensures forall x :: x in Distinct(s) <==> x in s
  {
    if s != [] {
      var p := s[..|s| - 1];
      DistinctSpec(p);
      assert s == p + [s[|s| - 1]];
    }
  }

  /** Distinct lists the elements in the order of their first occurrence in s. */
  lemma {:induction false} DistinctKeepsFirstOccurrenceOrder<T(!new)>(s: seq<T>, i: nat, j: nat)
    requires i < j < |Distinct(s)|
    ensures Distinct(s)[i] in s && Distinct(s)[j] in s
    ensures FirstIndex(s, Distinct(s)[i]) < FirstIndex(s, Distinct(s)[j])
  {
    var n := |s|;
    var p := s[..n - 1];
    var d := Distinct(p);
    DistinctSpec(s);
    DistinctSpec(p);
    assert s == p + [s[n - 1]];
    var x, y := Distinct(s)[i], Distinct(s)[j];
    assert x == d[i] && x in d && x in p;
    FirstIndexAppend(p, [s[n - 1]], x);
    if j < |d| {
      assert y == d[j] && y in d && y in p;
      FirstIndexAppend(p, [s[n - 1]], y);
      DistinctKeepsFirstOccurrenceOrder(p, i, j);
    } else {
      assert y == s[n - 1] && y !in p;
      assert FirstIndex(s, y) == n - 1;
    }
  }

  /** Deduplicating a sequence without duplicates changes nothing. */
  lemma {:induction false} DistinctOfNoDup<T(!new)>(s: seq<T>)
    requires NoDup(s)
    ensures Distinct(s) == s
  {
    if s != [] {
      var p := s[..|s| - 1];
      DistinctOfNoDup(p);
      DistinctSpec(p);
      assert s[|s| - 1] !in p;
      assert s == p + [s[|s| - 1]];
    }
  }

  /** A duplicate-free sequence has as many elements as its element set. */
  lemma {:induction false} NoDupCard<T>(r: seq<T>)
    requires NoDup(r)
    ensures |Elements(r)| == |r|
  {
    if r != [] {
      var p := r[..|r| - 1];
      assert r == p + [r[|r| - 1]];
      assert Elements(r) == Elements(p) + {r[|r| - 1]};
      assert r[|r| - 1] !in Elements(p);
      NoDupCard(p);
    }
  }

  /** Distinct keeps exactly one copy of every element. */
  lemma DistinctCard<T(!new)>(s: seq<T>)
    ensures |Distinct(s)| == |Elements(s)|
    ensures Elements(Distinct(s)) == Elements(s)
  {
    DistinctSpec(s);
    NoDupCard(Distinct(s));
    assert Elements(Distinct(s)) == Elements(s);
  }

  /** The pairs of s, keeping for every key only its first pair. */
  function FirstPerKey<K(==), V>(s: seq<(K, V)>): seq<(K, V)>
  {
    if s == [] then []
    else
      var d := FirstPerKey(s[..|s| - 1]);
      if s[|s| - 1].0 in KeysOf(d) then d else d + [s[|s| - 1]]
  }

  /** FirstPerKey keeps pairs of s, and their keys are the distinct keys of s. */
  lemma {:induction false} FirstPerKeySpec<K(!new), V>(s: seq<(K, V)>)
    ensures KeysOf(FirstPerKey(s)) == Distinct(KeysOf(s))
    ensures forall pr :: pr in FirstPerKey(s) ==> pr in s
  {
    if s != [] {
      var p := s[..|s| - 1];
      var d := FirstPerKey(p);
      FirstPerKeySpec(p);
      DistinctSpec(KeysOf(p));
      assert s == p + [s[|s| - 1]];
      KeysOfAppend(p, [s[|s| - 1]]);
      assert KeysOf(s)[..|s| - 1] == KeysOf(p);
      KeysOfAppend(d, [s[|s| - 1]]);
    }
  }

  /** Appending a pair keeps it exactly when its key is new. */
  lemma FirstPerKeyStep<K(!new), V>(s: seq<(K, V)>, e: (K, V))
    ensures FirstPerKey(s + [e]) == if e.0 in KeysOf(s) then FirstPerKey(s) else FirstPerKey(s) + [e]
    ensures Elements(KeysOf(s + [e])) == Elements(KeysOf(s)) + {e.0}
  {
    var t := s + [e];
    assert t[..|t| - 1] == s;
    FirstPerKeySpec(s);
    DistinctSpec(KeysOf(s));
    KeysOfAppend(s, [e]);
    assert KeysOf(t) == KeysOf(s) + [e.0];
  }

  /** Pairs whose keys are already distinct are all kept. */
  lemma {:induction false} FirstPerKeyOfNoDup<K(!new), V>(s: seq<(K, V)>)
    requires NoDup(KeysOf(s))
    ensures FirstPerKey(s) == s
  {
    if s != [] {
      var n := |s|;
      var p := s[..n - 1];
      assert s == p + [s[n - 1]];
      KeysOfAppend(p, [s[n - 1]]);
      assert KeysOf(p) == KeysOf(s)[..n - 1];
      FirstPerKeyOfNoDup(p);
      FirstPerKeyStep(p, s[n - 1]);
      assert s[n - 1].0 !in KeysOf(p) by {
        forall j | 0 <= j < n - 1 ensures KeysOf(p)[j] != s[n - 1].0 {
          assert KeysOf(s)[j] != KeysOf(s)[n - 1];
        }
      }
    }
  }

  /** The pair FirstPerKey keeps for a key is the key's first pair in s. */
  lemma {:induction false} FirstPerKeyKeepsFirst<K(!new), V>(s: seq<(K, V)>, i: nat)
    requires i < |FirstPerKey(s)|
    ensures FirstPerKey(s)[i].0 in KeysOf(s)
    ensures FirstPerKey(s)[i] == s[FirstIndex(KeysOf(s), FirstPerKey(s)[i].0)]
  {
    var n := |s|;
    var p := s[..n - 1];
    var d := FirstPerKey(p);
    FirstPerKeySpec(p);
    DistinctSpec(KeysOf(p));
    assert s == p + [s[n - 1]];
    KeysOfAppend(p, [s[n - 1]]);
    var x := FirstPerKey(s)[i];
    if i < |d| {
      assert x == d[i];
      assert KeysOf(d)[i] == x.0;
      assert x.0 in KeysOf(p);
      FirstIndexAppend(KeysOf(p), KeysOf([s[n - 1]]), x.0);
      FirstPerKeyKeepsFirst(p, i);
    } else {
      assert x == s[n - 1];
      assert x.0 !in KeysOf(d);
      assert x.0 !in KeysOf(p);
      assert KeysOf(s)[n - 1] == x.0;
      assert FirstIndex(KeysOf(s), x.0) == n - 1;
    }
  }

  /** The map that results from assigning the pairs of s in order into an
      initially empty dictionary. */
  function LastValues<K(==), V>(s: seq<(K, V)>): map<K, V>
  {
    if s == [] then map[]
    else LastValues(s[..|s| - 1])[s[|s| - 1].0 := s[|s| - 1].1]
  }

  /** The dictionary has exactly the keys of the pairs. */
  lemma {:induction false} LastValuesKeys<K(!new), V>(s: seq<(K, V)>)
    ensures forall k :: k in LastValues(s) <==> k in KeysOf(s)
  {
    if s != [] {
      var p := s[..|s| - 1];
      LastValuesKeys(p);
      assert s == p + [s[|s| - 1]];
      KeysOfAppend(p, [s[|s| - 1]]);
      assert KeysOf([s[|s| - 1]]) == [s[|s| - 1].0];
    }
  }

  /** In LastValues, the value of a key is the one of its last pair. */
  lemma {:induction false} LastWriteWins<K(!new), V>(s: seq<(K, V)>, i: nat)
    requires i < |s|
    requires forall j :: i < j < |s| ==> s[j].0 != s[i].0
    ensures s[i].0 in LastValues(s) && LastValues(s)[s[i].0] == s[i].1
  {
    if i < |s| - 1 {
      LastWriteWins(s[..|s| - 1], i);
    }
  }

  /** Python's sep.join(parts). */
  function Join(parts: seq<string>, sep: char): string
  {
    if |parts| == 0 then ""
    else if |parts| == 1 then parts[0]
    else parts[0] + [sep] + Join(parts[1..], sep)
  }

  /** Python's s.split(sep): the pieces between separators (never empty). */
  function Split(s: string, sep: char): (parts: seq<string>)
    ensures |parts| >= 1
    decreases |s|
  {
    if sep !in s then [s]
    else
      var i := FirstIndex(s, sep);
      [s[..i]] + Split(s[i + 1..], sep)
  }

  /** Splitting at the separator that follows a separator-free head. */
  lemma SplitAfterHead(head: string, rest: string, sep: char)
    requires sep !in head
    ensures Split(head + [sep] + rest, sep) == [head] + Split(rest, sep)
  {
    var s := head + [sep] + rest;
    assert s[|head|] == sep;
    assert forall j :: 0 <= j < |head| ==> s[j] == head[j];
    var i := FirstIndex(s, sep);
    assert s[..i] == head;
    assert s[i + 1..] == rest;
  }

  /** Splitting a joined list gives the list back when no part holds the
      separator: no part is lost or merged by the join. */
  lemma {:induction false} SplitJoin(parts: seq<string>, sep: char)
    requires |parts| > 0
    requires forall k :: 0 <= k < |parts| ==> sep !in parts[k]
    ensures Split(Join(parts, sep), sep) == parts
  {
    if |parts| > 1 {
      SplitAfterHead(parts[0], Join(parts[1..], sep), sep);
      SplitJoin(parts[1..], sep);
      assert parts == [parts[0]] + parts[1..];
    }
  }

  predicate IsDigit(c: char)
  {
    '0' <= c <= '9'
  }

  /** The number a string of decimal digits denotes. */
  function ValueOf(s: string): nat
    requires forall i :: 0 <= i < |s| ==> IsDigit(s[i])
  {
    if s == [] then 0
    else
      assert IsDigit(s[|s| - 1]);
      ValueOf(s[..|s| - 1]) * 10 + (s[|s| - 1] as int - '0' as int)
  }

  /** The decimal digits of n, as Python's str(n) writes them: digits
      only, and no leading zero unless n is 0. */
  function Decimal(n: nat): (s: string)
    ensures |s| > 0
    ensures forall i :: 0 <= i < |s| ==> IsDigit(s[i])
    ensures s[0] == '0' ==> n == 0 && s == "0"
  {
    if n < 10 then ["0123456789"[n]]
    else Decimal(n / 10) + ["0123456789"[n % 10]]
  }

  /** Reading the digits back gives n. */
  lemma {:induction false} DecimalRoundTrip(n: nat)
    ensures ValueOf(Decimal(n)) == n
  {
    if n >= 10 {
      DecimalRoundTrip(n / 10);
      var s := Decimal(n);
      assert s[..|s| - 1] == Decimal(n / 10);
    }
  }
}
