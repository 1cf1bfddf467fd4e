/** Small helpers shared by the whole model: an optional value (the source's
    `null`/`undefined`), JavaScript truthiness of strings, the string
    operations the source calls (`trim`, `toLowerCase`, `includes`,
    `startsWith`, `slice(0, n)`), and order-preserving filtering and sums
    over sequences (`Array.prototype.filter`, `reduce`). */
module Common {

  datatype Option<+T> = None | Some(value: T)

  /** JavaScript truthiness of a nullable string: `null` and `""` are falsy. */
  predicate Truthy(s: Option<string>)
  {
    s.Some? && s.value != ""
  }

  /** `a || b` on nullable strings. */
  function OrElse(a: Option<string>, b: Option<string>): (r: Option<string>)
    ensures Truthy(a) ==> r == a
    ensures !Truthy(a) ==> r == b
  {
    if Truthy(a) then a else b
  }

  /** `s.slice(0, n)` */
  function Take(s: string, n: nat): (r: string)
    ensures |r| == if |s| <= n then |s| else n
    ensures r <= s
  {
    if |s| <= n then s else s[..n]
  }

  /** `s.startsWith(p)` */
  predicate StartsWith(s: string, p: string)
  {
    p <= s
  }

  /** `s.includes(q)`: q occurs in s at some position (the empty string occurs everywhere). */
  predicate Contains(s: string, q: string)
    decreases |s|
  {
    q <= s || (|s| > 0 && Contains(s[1..], q))
  }

  /** q occurs in s starting at index i. */
  predicate OccursAt(s: string, q: string, i: int)
  {
    0 <= i <= |s| - |q| && s[i..i + |q|] == q
  }

  /** Where `includes` finds q: an index at which it occurs. */
  lemma {:induction false} ContainsWitness(s: string, q: string) returns (i: int)
    requires Contains(s, q)
    ensures OccursAt(s, q, i)
    decreases |s|
  {
    if q <= s {
      i := 0;
    } else {
      var j := ContainsWitness(s[1..], q);
      assert s[j + 1..j + 1 + |q|] == q by {
        forall k | 0 <= k < |q| ensures s[j + 1..j + 1 + |q|][k] == q[k] {
          assert q[k] == s[1..][j..j + |q|][k] == s[j + 1 + k];
        }
      }
      i := j + 1;
    }
  }

  /** An occurrence at any index is found by `includes`. */
  lemma {:induction false} OccurrenceContained(s: string, q: string, i: int)
    requires OccursAt(s, q, i)
    ensures Contains(s, q)
    decreases i
  {
    if i > 0 {
      assert s[1..][i - 1..i - 1 + |q|] == q by {
        forall k | 0 <= k < |q| ensures s[1..][i - 1..i - 1 + |q|][k] == q[k] {
          assert q[k] == s[i..i + |q|][k] == s[i + k];
        }
      }
      OccurrenceContained(s[1..], q, i - 1);
    }
  }

  /** Contains is exactly "q occurs in s at some index". */
  lemma ContainsAt(s: string, q: string)
    ensures Contains(s, q) <==> exists i :: OccursAt(s, q, i)
  {
    forall i | OccursAt(s, q, i)
      ensures Contains(s, q)
    {
      OccurrenceContained(s, q, i);
    }
    if Contains(s, q) {
      var i := ContainsWitness(s, q);
    }
  }

  /** ASCII upper-case letters are mapped to lower case; every other character is kept. */
  function LowerChar(c: char): (r: char)
    ensures 'A' <= c <= 'Z' ==> 'a' <= r <= 'z'
    ensures !('A' <= c <= 'Z') ==> r == c
  {
    if 'A' <= c <= 'Z' then (c as int - 'A' as int + 'a' as int) as char else c
  }

  /** `s.toLowerCase()`, restricted to ASCII letters */
  function ToLower(s: string): (r: string)
    ensures |r| == |s|
    ensures forall i :: 0 <= i < |s| ==> r[i] == LowerChar(s[i])
  {
    seq(|s|, i requires 0 <= i < |s| => LowerChar(s[i]))
  }

  /** The characters `String.prototype.trim` removes: ECMAScript WhiteSpace and LineTerminator. */
  predicate IsSpace(c: char)
  {
    c == ' ' || c == '\t' || c == '\n' || c == '\r' || c == '\U{B}' || c == '\U{C}'
    || c == '\U{A0}' || c == '\U{1680}' || ('\U{2000}' <= c <= '\U{200A}')
    || c == '\U{2028}' || c == '\U{2029}' || c == '\U{202F}' || c == '\U{205F}'
    || c == '\U{3000}' || c == '\U{FEFF}'
  }

  function TrimStart(s: string): (r: string)
    ensures |r| <= |s| && r == s[|s| - |r|..]
    ensures r == [] || !IsSpace(r[0])
    ensures forall i :: 0 <= i < |s| - |r| ==> IsSpace(s[i])
  {
    if s != [] && IsSpace(s[0]) then TrimStart(s[1..]) else s
  }

  function TrimEnd(s: string): (r: string)
    ensures |r| <= |s| && r == s[..|r|]
    ensures r == [] || !IsSpace(r[|r| - 1])
    ensures forall i :: |r| <= i < |s| ==> IsSpace(s[i])
  {
    if s != [] && IsSpace(s[|s| - 1]) then TrimEnd(s[..|s| - 1]) else s
  }

  /** `s.trim()` */
  function Trim(s: string): (r: string)
  {
    TrimEnd(TrimStart(s))
  }

  /** A string trims to nothing exactly when every character of it is white space. */
  lemma TrimEmpty(s: string)
    ensures Trim(s) == [] <==> forall i :: 0 <= i < |s| ==> IsSpace(s[i])
  {
    var t := TrimStart(s);
    assert t != [] ==> t[0] == s[|s| - |t|];
  }

  /** `s.filter(keep)`: the elements of s that satisfy keep, in their order. */
  function Filter<T>(s: seq<T>, keep: T -> bool): (r: seq<T>)
    ensures |r| <= |s|
    ensures forall i :: 0 <= i < |r| ==> r[i] in s && keep(r[i])
    ensures forall i :: 0 <= i < |s| && keep(s[i]) ==> s[i] in r
  {
    if s == [] then []
    else (if keep(s[0]) then [s[0]] else []) + Filter(s[1..], keep)
  }

  /** Filtering distributes over concatenation, so the order of the kept elements is the input order. */
  lemma {:induction false} FilterConcat<T>(a: seq<T>, b: seq<T>, keep: T -> bool)
    ensures Filter(a + b, keep) == Filter(a, keep) + Filter(b, keep)
  {
    if a == [] {
      assert a + b == b;
    } else {
      assert (a + b)[0] == a[0];
      assert (a + b)[1..] == a[1..] + b;
      FilterConcat(a[1..], b, keep);
    }
  }

  /** Filtering keeps every element exactly when it keeps as many elements as it was given. */
  lemma {:induction false} FilterKeepsAll<T>(s: seq<T>, keep: T -> bool)
    ensures |Filter(s, keep)| == |s| <==> forall i :: 0 <= i < |s| ==> keep(s[i])
    ensures (forall i :: 0 <= i < |s| ==> keep(s[i])) ==> Filter(s, keep) == s
  {
    if s != [] {
      FilterKeepsAll(s[1..], keep);
      if forall i :: 0 <= i < |s| ==> keep(s[i]) {
        assert forall i :: 0 <= i < |s[1..]| ==> keep(s[1..][i]) by {
          forall i | 0 <= i < |s[1..]| ensures keep(s[1..][i]) { assert s[1..][i] == s[i + 1]; }
        }
      } else {
        var j :| 0 <= j < |s| && !keep(s[j]);
        if j > 0 {
          assert !keep(s[1..][j - 1]);
        }
      }
    }
  }

  /** `s.reduce((acc, x) => acc + f(x), 0)` */
  function Sum<T>(s: seq<T>, f: T -> real): real
  {
    if s == [] then 0.0 else Sum(s[..|s| - 1], f) + f(s[|s| - 1])
  }

  /** A sum of zeros is zero. */
  lemma {:induction false} SumZero<T>(s: seq<T>, f: T -> real)
    ensures (forall i :: 0 <= i < |s| ==> f(s[i]) == 0.0) ==> Sum(s, f) == 0.0
  {
    if s != [] && forall i :: 0 <= i < |s| ==> f(s[i]) == 0.0 {
      var init := s[..|s| - 1];
      assert forall i :: 0 <= i < |init| ==> init[i] == s[i];
      SumZero(init, f);
    }
  }

  /** Sums of non-negative terms are non-negative, and positive exactly when some term is. */
  lemma {:induction false} SumPositive<T>(s: seq<T>, f: T -> real)
    requires forall i :: 0 <= i < |s| ==> f(s[i]) >= 0.0
    ensures Sum(s, f) >= 0.0
    ensures Sum(s, f) > 0.0 <==> exists i :: 0 <= i < |s| && f(s[i]) > 0.0
  {
    if s != [] {
      var init := s[..|s| - 1];
      assert forall i :: 0 <= i < |init| ==> f(init[i]) >= 0.0 by {
        forall i | 0 <= i < |init| ensures f(init[i]) >= 0.0 { assert init[i] == s[i]; }
      }
      SumPositive(init, f);
      if Sum(init, f) > 0.0 {
        var i :| 0 <= i < |init| && f(init[i]) > 0.0;
        assert s[i] == init[i];
      }
      if exists i :: 0 <= i < |s| && f(s[i]) > 0.0 {
        var i :| 0 <= i < |s| && f(s[i]) > 0.0;
        if i < |s| - 1 {
          assert init[i] == s[i];
        }
      }
    }
  }
}
