/**
 The JavaScript string and array built-ins that the form handlers rely on:
 `String.prototype.split` with a one-character separator, `Array.prototype.join`,
 `Array.prototype.filter(x => x !== v)`, `String.prototype.trim` and
 `String.prototype.includes`, with the laws that connect them.
 */
module JsText {

  /** `s.split(sep)`: the maximal separator-free pieces of `s`, in order.
      As in JavaScript, the empty string splits into one empty piece. */
  function Split(s: string, sep: char): (r: seq<string>)
    ensures |r| >= 1
    ensures forall p :: p in r ==> sep !in p
  {
    if |s| == 0 then [""]
    else
      var rest := Split(s[1..], sep);
      if s[0] == sep then [""] + rest
      else [[s[0]] + rest[0]] + rest[1..]
  }

  /** `parts.join(sep)`: the empty array joins to "", one part to itself; a
      longer array starts with its first part and ends with its last. */
  function Join(parts: seq<string>, sep: string): (r: string)
    ensures |parts| == 0 ==> r == ""
    ensures |parts| > 0 ==> parts[0] <= r
  {
    if |parts| == 0 then ""
    else if |parts| == 1 then parts[0]
    else parts[0] + sep + Join(parts[1..], sep)
  }

  /** `xs.filter(x => x !== v)`: every element other than `v`, in order. */
  function Remove<T(==, !new)>(xs: seq<T>, v: T): (r: seq<T>)
    ensures forall x :: x in r <==> x in xs && x != v
    ensures |r| <= |xs|
  {
    if |xs| == 0 then []
    else
      assert xs == [xs[0]] + xs[1..];
      (if xs[0] == v then [] else [xs[0]]) + Remove(xs[1..], v)
  }

  /** The characters `String.prototype.trim` strips: WhiteSpace and
      LineTerminator of section 12.2 and 12.3 of ECMA-262. */
  predicate IsJsWhitespace(c: char)
  {
    || c == '\t' || c == '\n' || c == '\U{000B}' || c == '\U{000C}' || c == '\r' || c == ' '
    || c == '\U{00A0}' || c == '\U{1680}' || ('\U{2000}' <= c <= '\U{200A}')
    || c == '\U{2028}' || c == '\U{2029}' || c == '\U{202F}' || c == '\U{205F}'
    || c == '\U{3000}' || c == '\U{FEFF}'
  }

  /** `s.trimStart()`: `s` without its leading whitespace. */
  function TrimStart(s: string): string
  {
    if |s| > 0 && IsJsWhitespace(s[0]) then TrimStart(s[1..]) else s
  }

  /** `s.trimEnd()`: `s` without its trailing whitespace. */
  function TrimEnd(s: string): string
  {
    if |s| > 0 && IsJsWhitespace(s[|s| - 1]) then TrimEnd(s[..|s| - 1]) else s
  }

  /** `s.trim()`: a piece of `s` that neither starts nor ends with whitespace,
      empty exactly when `s` is all whitespace. */
  function Trim(s: string): (r: string)
    ensures Includes(s, r)
    ensures r == [] || (!IsJsWhitespace(r[0]) && !IsJsWhitespace(r[|r| - 1]))
    ensures r == "" <==> forall i :: 0 <= i < |s| ==> IsJsWhitespace(s[i])
  {
    var t := TrimStart(s);
    TrimStartSuffix(s);
    TrimEndPrefix(t);
    TrimEmptyIff(s);
    var r := TrimEnd(t);
    assert s[|s| - |t|..][..|r|] == s[|s| - |t|..|s| - |t| + |r|];
    assert OccursAt(s, r, |s| - |t|);
    r
  }

  /** `trimStart` leaves the suffix that follows a whitespace-only prefix and
      does not start with whitespace. */
  lemma {:induction false} TrimStartSuffix(s: string)
    ensures var r := TrimStart(s);
            && |r| <= |s| && r == s[|s| - |r|..]
            && (r == [] || !IsJsWhitespace(r[0]))
            && forall i :: 0 <= i < |s| - |r| ==> IsJsWhitespace(s[i])
  {
    if |s| > 0 && IsJsWhitespace(s[0]) {
      TrimStartSuffix(s[1..]);
    }
  }

  /** `trimEnd` leaves the prefix that precedes a whitespace-only suffix and
      does not end with whitespace. */
  lemma {:induction false} TrimEndPrefix(s: string)
    ensures var r := TrimEnd(s);
            && |r| <= |s| && r == s[..|r|]
            && (r == [] || !IsJsWhitespace(r[|r| - 1]))
            && forall i :: |r| <= i < |s| ==> IsJsWhitespace(s[i])
  {
    if |s| > 0 && IsJsWhitespace(s[|s| - 1]) {
      TrimEndPrefix(s[..|s| - 1]);
    }
  }

  /** `s.trimStart().trimEnd() === ""` holds exactly when every character of `s` is whitespace. */
  lemma {:induction false} TrimEmptyIff(s: string)
    ensures TrimEnd(TrimStart(s)) == "" <==> forall i :: 0 <= i < |s| ==> IsJsWhitespace(s[i])
  {
    var t := TrimStart(s);
    TrimStartSuffix(s);
    TrimEndPrefix(t);
    if TrimEnd(t) == "" {
      assert |t| == 0;
    } else {
      var r := TrimEnd(t);
      assert t[|r| - 1] == r[|r| - 1];
      assert s[|s| - |t| + |r| - 1] == t[|r| - 1];
    }
  }

  /** `t` occurs in `s` starting at position `i`. */
  predicate OccursAt(s: string, t: string, i: int)
  {
    0 <= i <= |s| - |t| && s[i..i + |t|] == t
  }

  /** `s.includes(t)`: `t` occurs in `s` at some position. The empty string
      and `s` itself are always included, and nothing longer than `s` is. */
  predicate Includes(s: string, t: string)
    ensures Includes(s, t) ==> |t| <= |s|
    ensures t == [] || t == s ==> Includes(s, t)
  {
    assert t == [] || t == s ==> OccursAt(s, t, 0);
    exists i :: 0 <= i <= |s| - |t| && OccursAt(s, t, i)
  }

  /** An occurrence of a string without `sep` does not cover a position holding `sep`. */
  lemma SeparatorOutsideOccurrence(s: string, t: string, i: int, j: int, sep: char)
    requires OccursAt(s, t, i)
    requires 0 <= j < |s| && s[j] == sep && sep !in t
    ensures j < i || i + |t| <= j
  {
    assert forall k :: i <= k < i + |t| ==> s[k] == t[k - i];
  }

  /** An occurrence of a separator-free string in `a + [sep] + b` lies wholly in `a` or wholly in `b`. */
  lemma {:induction false} IncludesAroundSep(a: string, b: string, sep: char, t: string)
    requires sep !in t
    ensures Includes(a + [sep] + b, t) <==> Includes(a, t) || Includes(b, t)
  {
    var s := a + [sep] + b;
    if Includes(a, t) {
      var i :| 0 <= i <= |a| - |t| && OccursAt(a, t, i);
      OccursFromLeft(a, b, sep, t, i);
    }
    if Includes(b, t) {
      var j :| 0 <= j <= |b| - |t| && OccursAt(b, t, j);
      OccursFromRight(a, b, sep, t, j);
    }
    if Includes(s, t) {
      var i :| 0 <= i <= |s| - |t| && OccursAt(s, t, i);
      SeparatorOutsideOccurrence(s, t, i, |a|, sep);
      if i + |t| <= |a| {
        OccursInLeft(a, b, sep, t, i);
      } else {
        OccursInRight(a, b, sep, t, i);
      }
    }
  }

  lemma OccursFromLeft(a: string, b: string, sep: char, t: string, i: int)
    requires OccursAt(a, t, i)
    ensures OccursAt(a + [sep] + b, t, i)
  {
    assert (a + [sep] + b)[i..i + |t|] == a[i..i + |t|];
  }

  lemma OccursFromRight(a: string, b: string, sep: char, t: string, j: int)
    requires OccursAt(b, t, j)
    ensures OccursAt(a + [sep] + b, t, |a| + 1 + j)
  {
    var s := a + [sep] + b;
    var i := |a| + 1 + j;
    assert s[i..i + |t|] == b[j..j + |t|];
  }

  lemma OccursInLeft(a: string, b: string, sep: char, t: string, i: int)
    requires OccursAt(a + [sep] + b, t, i) && i + |t| <= |a|
    ensures OccursAt(a, t, i)
  {
    assert a[i..i + |t|] == (a + [sep] + b)[i..i + |t|];
  }

  lemma OccursInRight(a: string, b: string, sep: char, t: string, i: int)
    requires OccursAt(a + [sep] + b, t, i) && i > |a|
    ensures OccursAt(b, t, i - |a| - 1)
  {
    var j := i - |a| - 1;
    assert b[j..j + |t|] == (a + [sep] + b)[i..i + |t|];
  }

  /** Splitting at one separator splits the two sides independently. */
  lemma {:induction false} SplitAppend(a: string, b: string, sep: char)
    ensures Split(a + [sep] + b, sep) == Split(a, sep) + Split(b, sep)
  {
    var s := a + [sep] + b;
    if |a| == 0 {
      assert s[1..] == b;
    } else {
      assert s[1..] == a[1..] + [sep] + b;
      SplitAppend(a[1..], b, sep);
    }
  }

  /** A string without the separator is a single piece. */
  lemma {:induction false} SplitWithoutSep(s: string, sep: char)
    requires sep !in s
    ensures Split(s, sep) == [s]
  {
    if |s| > 0 {
      SplitWithoutSep(s[1..], sep);
      assert [s[0]] + s[1..] == s;
    }
  }

  /** Joining the pieces of a split with the same separator gives back the string. */
  lemma {:induction false} JoinSplit(s: string, sep: char)
    ensures Join(Split(s, sep), [sep]) == s
  {
    if |s| > 0 {
      var rest := Split(s[1..], sep);
      JoinSplit(s[1..], sep);
      if s[0] == sep {
        assert Split(s, sep) == [""] + rest;
        assert ([""] + rest)[1..] == rest;
      } else {
        var parts := [[s[0]] + rest[0]] + rest[1..];
        assert Split(s, sep) == parts;
        if |rest| == 1 {
          assert Join(parts, [sep]) == [s[0]] + Join(rest, [sep]);
        } else {
          assert parts[1..] == rest[1..];
          assert Join(parts, [sep]) == [s[0]] + rest[0] + [sep] + Join(rest[1..], [sep]);
          assert Join(rest, [sep]) == rest[0] + [sep] + Join(rest[1..], [sep]);
        }
        assert [s[0]] + s[1..] == s;
      }
    }
  }

  /** Splitting a join of separator-free parts gives back the parts. */
  lemma {:induction false} SplitJoin(parts: seq<string>, sep: char)
    requires |parts| >= 1
    requires forall p :: p in parts ==> sep !in p
    ensures Split(Join(parts, [sep]), sep) == parts
  {
    if |parts| == 1 {
      SplitWithoutSep(parts[0], sep);
    } else {
      var rest := parts[1..];
      assert forall p :: p in rest ==> p in parts;
      SplitJoin(rest, sep);
      SplitWithoutSep(parts[0], sep);
      assert Join(parts, [sep]) == parts[0] + [sep] + Join(rest, [sep]);
      SplitAppend(parts[0], Join(rest, [sep]), sep);
      assert [parts[0]] + rest == parts;
    }
  }

  /** Filtering keeps the order: it distributes over concatenation. */
  lemma {:induction false} RemoveAppend<T(!new)>(a: seq<T>, b: seq<T>, v: T)
    ensures Remove(a + b, v) == Remove(a, v) + Remove(b, v)
  {
    if |a| == 0 {
      assert a + b == b;
    } else {
      var head := if a[0] == v then [] else [a[0]];
      assert (a + b)[0] == a[0];
      assert (a + b)[1..] == a[1..] + b;
      RemoveAppend(a[1..], b, v);
      calc {
        Remove(a + b, v);
        head + Remove(a[1..] + b, v);
        head + (Remove(a[1..], v) + Remove(b, v));
        (head + Remove(a[1..], v)) + Remove(b, v);
        Remove(a, v) + Remove(b, v);
      }
    }
  }

  /** Filtering drops every copy of `v` and keeps every copy of every other value. */
  lemma {:induction false} RemoveMultiset<T(!new)>(xs: seq<T>, v: T)
    ensures multiset(Remove(xs, v)) == multiset(xs)[v := 0]
  {
    if |xs| > 0 {
      RemoveMultiset(xs[1..], v);
      assert xs == [xs[0]] + xs[1..];
    }
  }

  /** Filtering out a value that does not occur changes nothing. */
  lemma {:induction false} RemoveAbsent<T(!new)>(xs: seq<T>, v: T)
    requires v !in xs
    ensures Remove(xs, v) == xs
  {
    if |xs| > 0 {
      RemoveAbsent(xs[1..], v);
      assert [xs[0]] + xs[1..] == xs;
    }
  }
}
