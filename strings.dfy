/** Text helpers standing in for the Python string methods the game relies on:
    `str.lower()`, `str.strip()`, `str.split()` and `sep.join(parts)`, restricted to ASCII. */
module Strings {

  /** The ASCII characters `str.split()` and `str.strip()` treat as whitespace: space, tab,
      line feed, vertical tab, form feed, carriage return, and the separators 0x1C-0x1F. */
  predicate IsSpace(c: char) {
    c == ' ' || '\t' <= c <= '\r' || '\U{001C}' <= c <= '\U{001F}'
  }

  predicate AllSpace(s: string) {
    forall i :: 0 <= i < |s| ==> IsSpace(s[i])
  }

  /** A token as `str.split()` produces it: non-empty and free of whitespace. */
  predicate IsToken(t: string) {
    t != [] && forall i :: 0 <= i < |t| ==> !IsSpace(t[i])
  }

  predicate IsUpper(c: char) {
    'A' <= c <= 'Z'
  }

  function LowerChar(c: char): (d: char)
    ensures !IsUpper(d)
    ensures IsSpace(d) <==> IsSpace(c)
    ensures !IsUpper(c) ==> d == c
  {
    if IsUpper(c) then (c as int + 32) as char else c
  }

  /** `str.lower()` on ASCII letters. */
  function Lower(s: string): (r: string)
    ensures |r| == |s|
    ensures forall i :: 0 <= i < |s| ==> r[i] == LowerChar(s[i])
  {
    if s == [] then [] else [LowerChar(s[0])] + Lower(s[1..])
  }

  /** Removes the leading whitespace. */
  function DropLeft(s: string): (r: string)
    ensures |r| <= |s| && r == s[|s| - |r|..]
    ensures r == [] || !IsSpace(r[0])
    ensures AllSpace(s[..|s| - |r|])
  {
    if s != [] && IsSpace(s[0]) then DropLeft(s[1..]) else s
  }

  /** Removes the trailing whitespace. */
  function DropRight(s: string): (r: string)
    ensures |r| <= |s| && r == s[..|r|]
    ensures r == [] || !IsSpace(r[|r| - 1])
    ensures AllSpace(s[|r|..])
  {
    if s != [] && IsSpace(s[|s| - 1]) then
      var r := DropRight(s[..|s| - 1]);
      assert s[|r|..] == s[..|s| - 1][|r|..] + [s[|s| - 1]];
      r
    else s
  }

  /** `str.strip()`: the input without whitespace at either end; empty exactly when the input is blank. */
  function Strip(s: string): (r: string)
    ensures r == [] || (!IsSpace(r[0]) && !IsSpace(r[|r| - 1]))
    ensures r == [] <==> AllSpace(s)
    ensures exists i, j :: 0 <= i <= j <= |s| && r == s[i..j] && AllSpace(s[..i]) && AllSpace(s[j..])
  {
    var t := DropLeft(s);
    var r := DropRight(t);
    StripBounds(s, t, r);
    r
  }

  /** What is left between a whitespace prefix and a whitespace suffix, as `DropLeft` and
      `DropRight` take them off. */
  lemma StripBounds(s: string, t: string, r: string)
    requires |t| <= |s| && t == s[|s| - |t|..] && AllSpace(s[..|s| - |t|])
    requires |r| <= |t| && r == t[..|r|] && AllSpace(t[|r|..])
    ensures r == [] ==> AllSpace(s)
    ensures var i := |s| - |t|;
      0 <= i <= i + |r| <= |s| && r == s[i..i + |r|] && AllSpace(s[..i]) && AllSpace(s[i + |r|..])
  {
    var i := |s| - |t|;
    assert t == s[i..] && AllSpace(s[..i]);
    assert r == t[..|r|] && AllSpace(t[|r|..]);
    assert t[..|r|] == s[i..i + |r|];
    assert t[|r|..] == s[i + |r|..];
    if r == [] {
      assert t[|r|..] == t;
      forall k | 0 <= k < |s|
        ensures IsSpace(s[k])
      {
        if k < i {
          assert s[k] == s[..i][k];
        } else {
          assert s[k] == t[k - i];
        }
      }
    }
  }

  /** The longest whitespace-free prefix of `s`. */
  function Word(s: string): (w: string)
    ensures |w| <= |s| && w == s[..|w|]
    ensures forall i :: 0 <= i < |w| ==> !IsSpace(w[i])
    ensures |w| < |s| ==> IsSpace(s[|w|])
    ensures s != [] && !IsSpace(s[0]) ==> |w| > 0
  {
    if s == [] || IsSpace(s[0]) then [] else [s[0]] + Word(s[1..])
  }

  /** `str.split()` with no separator: the maximal runs of non-whitespace, in order. */
  function Split(s: string): (r: seq<string>)
    ensures forall i :: 0 <= i < |r| ==> IsToken(r[i])
    decreases |s|
  {
    if s == [] then []
    else if IsSpace(s[0]) then Split(s[1..])
    else
      var w := Word(s);
      [w] + Split(s[|w|..])
  }

  /** `sep.join(parts)`. */
  function Join(parts: seq<string>, sep: string): string {
    if parts == [] then []
    else if |parts| == 1 then parts[0]
    else parts[0] + sep + Join(parts[1..], sep)
  }

  /** Reading a text back line by line: the pieces between newline characters. */
  function Lines(s: string): (r: seq<string>)
    ensures |r| >= 1
  {
    if s == [] then [[]]
    else if s[0] == '\n' then [[]] + Lines(s[1..])
    else
      var rest := Lines(s[1..]);
      [[s[0]] + rest[0]] + rest[1..]
  }

  predicate NoNewline(s: string) {
    '\n' !in s
  }

  lemma {:induction false} WordOfToken(t: string, rest: string)
    requires IsToken(t)
    requires rest == [] || IsSpace(rest[0])
    ensures Word(t + rest) == t
    decreases |t|
  {
    if |t| > 1 {
      assert (t + rest)[1..] == t[1..] + rest;
      WordOfToken(t[1..], rest);
    } else {
      assert (t + rest)[1..] == rest;
    }
  }

  /** Splitting a text that is blank gives no tokens, and only such a text does. */
  lemma {:induction false} SplitBlank(s: string)
    ensures Split(s) == [] <==> AllSpace(s)
    decreases |s|
  {
    if s != [] && IsSpace(s[0]) {
      SplitBlank(s[1..]);
      assert AllSpace(s) <==> AllSpace(s[1..]);
    }
  }

  predicate NoUpper(s: string) {
    forall i :: 0 <= i < |s| ==> !IsUpper(s[i])
  }

  lemma LowerNoUpper(s: string)
    ensures NoUpper(Lower(s))
  {
  }

  /** Splitting a text without upper-case letters gives tokens without upper-case letters. */
  lemma {:induction false} SplitNoUpper(s: string)
    requires NoUpper(s)
    ensures forall i :: 0 <= i < |Split(s)| ==> NoUpper(Split(s)[i])
    decreases |s|
  {
    if s != [] {
      if IsSpace(s[0]) {
        SplitNoUpper(s[1..]);
      } else {
        var w := Word(s);
        assert NoUpper(w) by {
          forall k | 0 <= k < |w|
            ensures !IsUpper(w[k])
          {
            assert w[k] == s[k];
          }
        }
        var rest := s[|w|..];
        assert NoUpper(rest) by {
          forall k | 0 <= k < |rest|
            ensures !IsUpper(rest[k])
          {
            assert rest[k] == s[|w| + k];
          }
        }
        SplitNoUpper(rest);
        assert Split(s) == [w] + Split(rest);
      }
    }
  }

  /** Leading whitespace is skipped, and a token followed by whitespace or by the end of the
      text is the next word. */
  lemma {:induction false} SplitStep(lead: string, t: string, rest: string)
    requires AllSpace(lead) && IsToken(t)
    requires rest == [] || IsSpace(rest[0])
    ensures Split(lead + t + rest) == [t] + Split(rest)
    decreases |lead|
  {
    var s := lead + t + rest;
    if lead == [] {
      assert s == t + rest;
      WordOfToken(t, rest);
      assert s[|t|..] == rest;
    } else {
      assert IsSpace(s[0]);
      assert s[1..] == lead[1..] + t + rest;
      SplitStep(lead[1..], t, rest);
    }
  }

  /** Tokens laid out between whitespace gaps: `gaps[0]` before the first token, `gaps[k]`
      between token k - 1 and token k, and the last gap after the last token. */
  function Spaced(ts: seq<string>, gaps: seq<string>): string
    requires |gaps| == |ts| + 1
  {
    if ts == [] then gaps[0] else gaps[0] + ts[0] + Spaced(ts[1..], gaps[1..])
  }

  /** `str.split()` recovers the tokens of any such layout whose gaps are whitespace and whose
      inner gaps are not empty: the words of a text are its maximal runs of non-whitespace. */
  lemma {:induction false} SplitSpaced(ts: seq<string>, gaps: seq<string>)
    requires |gaps| == |ts| + 1
    requires forall k :: 0 <= k < |ts| ==> IsToken(ts[k])
    requires forall k :: 0 <= k < |gaps| ==> AllSpace(gaps[k])
    requires forall k :: 0 < k < |ts| ==> gaps[k] != []
    ensures Split(Spaced(ts, gaps)) == ts
    decreases |ts|
  {
    if ts == [] {
      SplitBlank(gaps[0]);
    } else {
      var rest := Spaced(ts[1..], gaps[1..]);
      if |ts| == 1 {
        assert rest == gaps[1];
      } else {
        assert rest == gaps[1] + ts[1] + Spaced(ts[2..], gaps[2..]);
        assert IsSpace(gaps[1][0]);
      }
      SplitStep(gaps[0], ts[0], rest);
      SplitSpaced(ts[1..], gaps[1..]);
      assert ts == [ts[0]] + ts[1..];
    }
  }

  /** `str.split()` inverts joining tokens with single spaces. */
  lemma {:induction false} SplitJoin(ts: seq<string>)
    requires forall i :: 0 <= i < |ts| ==> IsToken(ts[i])
    ensures Split(Join(ts, " ")) == ts
  {
    if ts == [] {
    } else if |ts| == 1 {
      WordOfToken(ts[0], []);
      assert ts[0] + [] == ts[0];
      assert ts[0][|ts[0]|..] == [];
    } else {
      var t, rest := ts[0], Join(ts[1..], " ");
      var s := t + " " + rest;
      assert s == t + (" " + rest);
      WordOfToken(t, " " + rest);
      assert s[|t|..] == " " + rest;
      assert (" " + rest)[1..] == rest;
      assert Split(" " + rest) == Split(rest);
      assert Split(s) == [t] + Split(" " + rest);
      SplitJoin(ts[1..]);
      assert ts == [t] + ts[1..];
    }
  }

  /** A single token splits to itself. */
  lemma SplitToken(t: string)
    requires IsToken(t)
    ensures Split(t) == [t]
  {
    SplitJoin([t]);
  }

  /** A stripped text that splits into one token is that token. */
  lemma StrippedSingleToken(t: string, w: string)
    requires t == [] || (!IsSpace(t[0]) && !IsSpace(t[|t| - 1]))
    requires Split(t) == [w]
    ensures t == w
  {
    assert t != [];
    var u := Word(t);
    assert u == w;
    var tail := t[|u|..];
    SplitBlank(tail);
  }

  lemma {:induction false} LinesOfLine(a: string)
    requires NoNewline(a)
    ensures Lines(a) == [a]
  {
    if a != [] {
      assert NoNewline(a[1..]) by { assert forall c | c in a[1..] :: c in a; }
      LinesOfLine(a[1..]);
      assert [a[0]] + a[1..] == a;
    }
  }

  /** A newline-free prefix followed by a newline is read back as the first line. */
  lemma {:induction false} LinesAppend(a: string, b: string)
    requires NoNewline(a)
    ensures Lines(a + "\n" + b) == [a] + Lines(b)
  {
    if a == [] {
      assert a + "\n" + b == "\n" + b;
      assert ("\n" + b)[1..] == b;
    } else {
      assert NoNewline(a[1..]) by { assert forall c | c in a[1..] :: c in a; }
      LinesAppend(a[1..], b);
      assert (a + "\n" + b)[1..] == a[1..] + "\n" + b;
      assert [a[0]] + a[1..] == a;
    }
  }

  lemma {:induction false} JoinNoNewline(parts: seq<string>, sep: string)
    requires NoNewline(sep)
    requires forall i :: 0 <= i < |parts| ==> NoNewline(parts[i])
    ensures NoNewline(Join(parts, sep))
  {
    if |parts| > 1 {
      JoinNoNewline(parts[1..], sep);
    }
  }

  /** Joining one more part appends the separator and that part. */
  lemma {:induction false} JoinSnoc(parts: seq<string>, p: string, sep: string)
    ensures Join(parts + [p], sep) == if parts == [] then p else Join(parts, sep) + sep + p
  {
    if |parts| > 1 {
      assert (parts + [p])[1..] == parts[1..] + [p];
      JoinSnoc(parts[1..], p, sep);
    } else if |parts| == 1 {
      assert (parts + [p])[1..] == [p];
    }
  }
}
