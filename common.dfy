/** Small shared vocabulary: optional values, the three states a JSON file on
    disk can be in, and a few facts about lists without duplicates. */
module Common {

  /** Python's `None` or a value. */
  datatype Option<+T> = None | Some(value: T)

  /** A JSON document kept in a file under `.data/`: absent, present but not
      parseable, or present and parsed to `content`. */
  datatype JsonFile<+T> = Missing | Corrupt | Valid(content: T)

  /** What `json.loads` of the file yields, with the source's fallback to an
      empty document for a missing or malformed file. */
  function Parsed<T>(f: JsonFile<T>, empty: T): (r: T)
    ensures f.Valid? ==> r == f.content
    ensures !f.Valid? ==> r == empty
  {
    match f
    case Valid(c) => c
    case _ => empty
  }

  /** The file as it is after one read: a missing file is created holding the
      empty document; a malformed one is left as it is. */
  function AfterRead<T>(f: JsonFile<T>, empty: T): (g: JsonFile<T>)
    ensures f.Missing? ==> g == Valid(empty)
    ensures !f.Missing? ==> g == f
    ensures Parsed(g, empty) == Parsed(f, empty)
  {
    if f.Missing? then Valid(empty) else f
  }

  predicate NoDuplicates<T(==)>(s: seq<T>) {
    forall i, j :: 0 <= i < j < |s| ==> s[i] != s[j]
  }

  /** Dropping the head of a list without repeats leaves a list without
      repeats that does not hold the head. */
  lemma NoDuplicatesTail<T>(s: seq<T>)
    requires NoDuplicates(s) && s != []
    ensures NoDuplicates(s[1..]) && s[0] !in s[1..]
  {
    forall a, b | 0 <= a < b < |s| - 1
      ensures s[1..][a] != s[1..][b]
    {
      assert s[1..][a] == s[a + 1] && s[1..][b] == s[b + 1];
    }
  }

  lemma ConcatAssoc<T>(a: seq<T>, b: seq<T>, c: seq<T>)
    ensures (a + b) + c == a + (b + c)
  {
  }

  /** `a` is `b` with some entries dropped, the rest kept in order. */
  predicate IsSubsequence<T(==)>(a: seq<T>, b: seq<T>)
    decreases |b|
  {
    if a == [] then true
    else if b == [] then false
    else if a[0] == b[0] then IsSubsequence(a[1..], b[1..])
    else IsSubsequence(a, b[1..])
  }

  lemma {:induction false} SubsequenceRefl<T>(s: seq<T>)
    ensures IsSubsequence(s, s)
    decreases |s|
  {
    if s != [] {
      SubsequenceRefl(s[1..]);
    }
  }

  lemma {:induction false} SubsequenceDropHead<T>(a: seq<T>, c: seq<T>)
    requires a != [] && IsSubsequence(a, c)
    ensures IsSubsequence(a[1..], c)
    decreases |c|, 1
  {
    if a[0] == c[0] {
      SubsequenceWeaken(a[1..], c);
    } else {
      SubsequenceDropHead(a, c[1..]);
      SubsequenceWeaken(a[1..], c);
    }
  }

  lemma {:induction false} SubsequenceWeaken<T>(x: seq<T>, c: seq<T>)
    requires c != [] && IsSubsequence(x, c[1..])
    ensures IsSubsequence(x, c)
    decreases |c|, 0
  {
    if x != [] && x[0] == c[0] {
      SubsequenceDropHead(x, c[1..]);
    }
  }

  lemma {:induction false} SubsequenceTrans<T>(a: seq<T>, b: seq<T>, c: seq<T>)
    requires IsSubsequence(a, b) && IsSubsequence(b, c)
    ensures IsSubsequence(a, c)
    decreases |c|
  {
    if a != [] {
      if b[0] == c[0] {
        if a[0] == b[0] {
          SubsequenceTrans(a[1..], b[1..], c[1..]);
        } else {
          SubsequenceTrans(a, b[1..], c[1..]);
        }
      } else {
        SubsequenceTrans(a, b, c[1..]);
        if a[0] == c[0] {
          SubsequenceDropHead(a, c[1..]);
        }
      }
    }
  }

  /** Python's `list.remove(x)`: drop the first occurrence of `x` (the model
      only calls it when `x` occurs). */
  function RemoveFirst<T(==,!new)>(s: seq<T>, x: T): (r: seq<T>)
    ensures x !in s ==> r == s
    ensures x in s ==> |r| == |s| - 1
    ensures forall y :: y in r ==> y in s
    ensures forall y :: y in s && y != x ==> y in r
    ensures NoDuplicates(s) ==> NoDuplicates(r) && x !in r
  {
    if s == [] then []
    else if s[0] == x then s[1..]
    else
      assert NoDuplicates(s) ==> NoDuplicates(s[1..]) && s[0] !in s[1..];
      [s[0]] + RemoveFirst(s[1..], x)
  }

  /** `list.remove` keeps the order of the other entries. */
  lemma {:induction false} RemoveFirstIsSubsequence<T(!new)>(s: seq<T>, x: T)
    ensures IsSubsequence(RemoveFirst(s, x), s)
    decreases |s|
  {
    if s != [] {
      if s[0] == x {
        SubsequenceRefl(s[1..]);
        SubsequenceWeaken(s[1..], s);
      } else {
        RemoveFirstIsSubsequence(s[1..], x);
        assert ([s[0]] + RemoveFirst(s[1..], x))[1..] == RemoveFirst(s[1..], x);
      }
    }
  }

  /** `[t for t in s if t != x]`. */
  function Without<T(==,!new)>(s: seq<T>, x: T): (r: seq<T>)
    ensures x !in r
    ensures forall y :: y in r <==> y in s && y != x
    ensures |r| <= |s|
  {
    if s == [] then []
    else if s[0] == x then Without(s[1..], x)
    else [s[0]] + Without(s[1..], x)
  }

  /** With no duplicates, removing the first occurrence and filtering out
      every occurrence agree. */
  lemma {:induction false} RemoveFirstIsWithout<T(!new)>(s: seq<T>, x: T)
    requires NoDuplicates(s)
    ensures RemoveFirst(s, x) == Without(s, x)
  {
    if s != [] {
      assert NoDuplicates(s[1..]);
      RemoveFirstIsWithout(s[1..], x);
      if s[0] == x {
        assert x !in s[1..];
        WithoutAbsent(s[1..], x);
      }
    }
  }

  lemma {:induction false} WithoutAbsent<T(!new)>(s: seq<T>, x: T)
    requires x !in s
    ensures Without(s, x) == s
  {
    if s != [] {
      WithoutAbsent(s[1..], x);
    }
  }
}
