/** String helpers the components rely on: JavaScript's `String.prototype.trim`, `split` on a
    single character with `join`, and the `getInitials` avatar helper that
    BalancesSummary.tsx, ExpenseList.tsx, CreateExpenseDialog.tsx and CreateTripDialog.tsx
    each declare with the same body. */
module Text {
  import opened Seqs

  /** The characters `trim` removes: ECMAScript WhiteSpace and LineTerminator. */
  predicate IsSpace(c: char) {
    || c == ' ' || c == '\t' || c == '\n' || c == '\r'
    || c == '\U{000B}' || c == '\U{000C}' || c == '\U{00A0}' || c == '\U{1680}'
    || ('\U{2000}' <= c <= '\U{200A}')
    || c == '\U{2028}' || c == '\U{2029}' || c == '\U{202F}' || c == '\U{205F}'
    || c == '\U{3000}' || c == '\U{FEFF}'
  }

  /** Drops the leading white space: the result is the longest suffix not starting with it. */
  function TrimStart(s: string): (r: string)
    ensures |r| <= |s| && r == s[|s| - |r|..]
    ensures forall k | 0 <= k < |s| - |r| :: IsSpace(s[k])
    ensures r == [] || !IsSpace(r[0])
  {
    if s == [] || !IsSpace(s[0]) then s else TrimStart(s[1..])
  }

  /** Drops the trailing white space: the result is the longest prefix not ending with it. */
  function TrimEnd(s: string): (r: string)
    ensures |r| <= |s| && r == s[..|r|]
    ensures forall k | |r| <= k < |s| :: IsSpace(s[k])
    ensures r == [] || !IsSpace(r[|r| - 1])
  {
    if s == [] || !IsSpace(s[|s| - 1]) then s else TrimEnd(s[..|s| - 1])
  }

  /** `s.trim()`: no white space is left at either end (`TrimCutsOnlySpace` says what was cut). */
  function Trim(s: string): (r: string)
    ensures |r| <= |s|
    ensures r == [] || (!IsSpace(r[0]) && !IsSpace(r[|r| - 1]))
  {
    TrimEnd(TrimStart(s))
  }

  /** `r` is `s[i..j]` and only white space lies outside it. */
  ghost predicate CutOfSpace(s: string, r: string, i: nat, j: nat) {
    && i <= j <= |s| && r == s[i..j]
    && (forall k | 0 <= k < i :: IsSpace(s[k]))
    && (forall k | j <= k < |s| :: IsSpace(s[k]))
  }

  /** The trimmed string is a contiguous piece of `s`, with only white space cut on either
      side. */
  lemma TrimCutsOnlySpace(s: string)
    ensures exists i, j :: CutOfSpace(s, Trim(s), i, j)
  {
    var a := TrimStart(s);
    var i := |s| - |a|;
    var j := i + |Trim(s)|;
    SpaceAfter(s, i, |Trim(s)|);
    assert CutOfSpace(s, Trim(s), i, j);
  }

  /** White space after `m` characters of the suffix `s[i..]` is white space of `s`. */
  lemma SpaceAfter(s: string, i: nat, m: nat)
    requires i + m <= |s| && forall k | m <= k < |s| - i :: IsSpace(s[i..][k])
    ensures forall k | i + m <= k < |s| :: IsSpace(s[k])
  {
    forall k | i + m <= k < |s| ensures IsSpace(s[k]) {
      assert s[k] == s[i..][k - i];
    }
  }

  /** Trimming is idempotent. */
  lemma TrimIdempotent(s: string)
    ensures Trim(Trim(s)) == Trim(s)
  {
    var r := Trim(s);
    assert TrimStart(r) == r;
    assert TrimEnd(r) == r;
  }

  /** `s.split(sep)` for a one-character separator: the pieces between separators,
      including empty pieces. */
  function SplitOn(s: string, sep: char): (parts: seq<string>)
    ensures |parts| == Count(s, sep) + 1
    ensures forall p | p in parts :: sep !in p
  {
    if s == [] then [""]
    else
      var rest := SplitOn(s[1..], sep);
      if s[0] == sep then [""] + rest
      else [[s[0]] + rest[0]] + rest[1..]
  }

  /** `parts.join(sep)`. */
  function Join(parts: seq<string>, sep: char): string {
    if parts == [] then ""
    else if |parts| == 1 then parts[0]
    else parts[0] + [sep] + Join(parts[1..], sep)
  }

  /** Joining the pieces of a split gives back the original string. */
  lemma {:induction false} JoinSplit(s: string, sep: char)
    ensures Join(SplitOn(s, sep), sep) == s
  {
    if s != [] {
      var rest := SplitOn(s[1..], sep);
      JoinSplit(s[1..], sep);
      if s[0] == sep {
        assert SplitOn(s, sep)[1..] == rest;
        assert s == [sep] + s[1..];
      } else if |rest| == 1 {
        assert s == [s[0]] + rest[0];
      } else {
        var parts := SplitOn(s, sep);
        assert parts[1..] == rest[1..];
        assert Join(rest, sep) == rest[0] + [sep] + Join(rest[1..], sep);
        assert s == [s[0]] + s[1..];
      }
    }
  }

  /** Splitting at a separator splits the pieces there. */
  lemma {:induction false} SplitConcat(a: string, b: string, sep: char)
    ensures SplitOn(a + [sep] + b, sep) == SplitOn(a, sep) + SplitOn(b, sep)
  {
    if a == [] {
      assert a + [sep] + b == [sep] + b;
      assert ([sep] + b)[1..] == b;
    } else {
      var s := a + [sep] + b;
      assert s[0] == a[0] && s[1..] == a[1..] + [sep] + b;
      SplitConcat(a[1..], b, sep);
      var left := SplitOn(a[1..], sep);
      var right := SplitOn(b, sep);
      if a[0] == sep {
        assert SplitOn(s, sep) == [""] + (left + right);
        ConsAssoc("", left, right);
      } else {
        var head := [a[0]] + left[0];
        TailConcat(left, right);
        assert SplitOn(s, sep) == [head] + (left[1..] + right);
        ConsAssoc(head, left[1..], right);
      }
    }
  }

  /** Sequence facts used above, stated generically so that the solver meets them apart
      from the string axioms of `SplitConcat`. */
  lemma ConsAssoc<T>(x: T, l: seq<T>, r: seq<T>)
    ensures [x] + (l + r) == ([x] + l) + r
  {
  }

  lemma TailConcat<T>(l: seq<T>, r: seq<T>)
    requires l != []
    ensures (l + r)[0] == l[0] && (l + r)[1..] == l[1..] + r
  {
  }

  /** `toUpperCase` on one character (ASCII letters only). */
  function UpperChar(c: char): char {
    if 'a' <= c <= 'z' then (c as int - 32) as char else c
  }

  function Upper(s: string): (r: string)
    ensures |r| == |s| && forall k | 0 <= k < |s| :: r[k] == UpperChar(s[k])
  {
    if s == [] then [] else [UpperChar(s[0])] + Upper(s[1..])
  }

  /** `words.map(n => n[0]).join('')`: an empty word contributes `undefined`, which `join`
      writes as the empty string. */
  function FirstLetters(words: seq<string>): (r: string)
    ensures |r| <= |words|
    ensures forall c | c in r :: exists w | w in words :: w != [] && w[0] == c
  {
    if words == [] then ""
    else
      var rest := FirstLetters(words[1..]);
      assert forall w | w in words[1..] :: w in words;
      (if words[0] == "" then "" else [words[0][0]]) + rest
  }

  /** `getInitials(name)`: at most one letter per space-separated piece, never a space and
      never a lower-case ASCII letter. */
  function Initials(name: string): (r: string)
    ensures |r| <= Count(name, ' ') + 1
    ensures ' ' !in r
    ensures forall c | c in r :: !('a' <= c <= 'z')
  {
    var parts := SplitOn(name, ' ');
    var letters := FirstLetters(parts);
    var r := Upper(letters);
    assert forall k | 0 <= k < |r| :: r[k] != ' ' && !('a' <= r[k] <= 'z') by {
      forall k | 0 <= k < |r| ensures r[k] != ' ' && !('a' <= r[k] <= 'z') {
        assert letters[k] in letters;
      }
    }
    r
  }

  lemma {:induction false} FirstLettersConcat(a: seq<string>, b: seq<string>)
    ensures FirstLetters(a + b) == FirstLetters(a) + FirstLetters(b)
  {
    if a == [] {
      assert a + b == b;
    } else {
      assert (a + b)[1..] == a[1..] + b;
      FirstLettersConcat(a[1..], b);
    }
  }

  /** A name of two space-separated parts has the initials of each part, in order. */
  lemma InitialsConcat(a: string, b: string)
    ensures Initials(a + " " + b) == Initials(a) + Initials(b)
  {
    SplitConcat(a, b, ' ');
    FirstLettersConcat(SplitOn(a, ' '), SplitOn(b, ' '));
    UpperConcat(FirstLetters(SplitOn(a, ' ')), FirstLetters(SplitOn(b, ' ')));
    assert a + " " + b == a + [' '] + b;
  }

  lemma UpperConcat(x: string, y: string)
    ensures Upper(x + y) == Upper(x) + Upper(y)
  {
    assert forall k | 0 <= k < |x + y| :: Upper(x + y)[k] == (Upper(x) + Upper(y))[k];
  }

  /** A single word yields its upper-cased first letter, and the empty name yields nothing. */
  lemma InitialsOfWord(w: string)
    requires ' ' !in w
    ensures Initials(w) == if w == "" then "" else [UpperChar(w[0])]
  {
    var parts := SplitOn(w, ' ');
    assert |parts| == 1;
    JoinSplit(w, ' ');
    assert parts == [w];
    assert FirstLetters(parts) == FirstLetters([w][1..]) + (if w == "" then "" else [w[0]]);
    assert [w][1..] == [];
  }

  /** Empty words contribute nothing: a leading space does not change the initials. */
  lemma InitialsSkipEmptyWord(w: string)
    ensures Initials(" " + w) == Initials(w)
  {
    InitialsConcat("", w);
    InitialsOfWord("");
    assert "" + " " + w == " " + w;
  }
}
