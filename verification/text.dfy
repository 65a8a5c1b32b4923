/**
 * The few string operations the game's text handling relies on, with
 * JavaScript's meaning: ASCII case mapping, `String.prototype.trim`
 * whitespace, and `split` on a single character.
 */
module Text {
  /** The characters `trim` removes: ECMAScript WhiteSpace and LineTerminator. */
  predicate IsWhitespace(c: char)
  {
    c == ' ' || c == '\t' || c == '\n' || c == '\r' || c == '\U{000B}' || c == '\U{000C}' ||
    c == '\U{00A0}' || c == '\U{1680}' || ('\U{2000}' <= c <= '\U{200A}') || c == '\U{2028}' ||
    c == '\U{2029}' || c == '\U{202F}' || c == '\U{205F}' || c == '\U{3000}' || c == '\U{FEFF}'
  }

  /** The characters the regular-expression `.` does not match. */
  predicate IsLineTerminator(c: char)
  {
    c == '\n' || c == '\r' || c == '\U{2028}' || c == '\U{2029}'
  }

  predicate IsUpper(c: char)
  {
    'A' <= c <= 'Z'
  }

  predicate IsLower(c: char)
  {
    'a' <= c <= 'z'
  }

  /** `toUpperCase` on one character, for the ASCII letters. */
  function ToUpper(c: char): (u: char)
    ensures IsLower(c) ==> IsUpper(u) && u as int == c as int - 32
    ensures !IsLower(c) ==> u == c
  {
    if IsLower(c) then (c as int - 32) as char else c
  }

  predicate NoWhitespace(s: string)
  {
    forall i :: 0 <= i < |s| ==> !IsWhitespace(s[i])
  }

  /** The only whitespace in `s` is plain spaces. */
  predicate OnlySpaces(s: string)
  {
    forall i :: 0 <= i < |s| ==> (IsWhitespace(s[i]) ==> s[i] == ' ')
  }

  /** `s` with its plain spaces deleted. */
  function RemoveSpaces(s: string): (r: string)
    ensures |r| <= |s|
    ensures forall i :: 0 <= i < |r| ==> r[i] != ' '
  {
    if |s| == 0 then ""
    else if s[0] == ' ' then RemoveSpaces(s[1..])
    else [s[0]] + RemoveSpaces(s[1..])
  }

  /** `replace(/([A-Z])/g, ' $1')`: a space before every capital letter. */
  function SpaceCaps(s: string): (r: string)
  {
    if |s| == 0 then "" else Spaced(s[0]) + SpaceCaps(s[1..])
  }

  /** What `SpaceCaps` writes for one character. */
  function Spaced(c: char): string
  {
    if IsUpper(c) then [' ', c] else [c]
  }

  /** `SpaceCaps` works character by character, so it distributes over concatenation. */
  lemma {:induction false} SpaceCapsAppend(a: string, b: string)
    ensures SpaceCaps(a + b) == SpaceCaps(a) + SpaceCaps(b)
  {
    if |a| == 0 {
      assert a + b == b;
    } else {
      var t := a + b;
      assert t[0] == a[0] && t[1..] == a[1..] + b;
      SpaceCapsAppend(a[1..], b);
      var head, p, q := Spaced(a[0]), SpaceCaps(a[1..]), SpaceCaps(b);
      assert head + (p + q) == (head + p) + q;
    }
  }

  /** Without capitals there is nothing to space out. */
  lemma {:induction false} SpaceCapsNoUpper(s: string)
    requires forall i :: 0 <= i < |s| ==> !IsUpper(s[i])
    ensures SpaceCaps(s) == s
  {
    if |s| > 0 {
      SpaceCapsNoUpper(s[1..]);
      assert [s[0]] + s[1..] == s;
    }
  }

  /** The number of capital letters in `s`. */
  function CountUpper(s: string): nat
  {
    if |s| == 0 then 0 else (if IsUpper(s[0]) then 1 else 0) + CountUpper(s[1..])
  }

  /** `replace(/^./, c => c.toUpperCase())`: the first character capitalised unless it ends a line. */
  function CapFirst(s: string): (r: string)
    ensures |r| == |s|
    ensures |s| > 0 && !IsLineTerminator(s[0]) ==> r[0] == ToUpper(s[0])
    ensures |s| > 0 && IsLineTerminator(s[0]) ==> r == s
    ensures |s| > 0 ==> r[1..] == s[1..]
  {
    if |s| == 0 || IsLineTerminator(s[0]) then s else [ToUpper(s[0])] + s[1..]
  }

  /** `trim`: leading and trailing whitespace removed. */
  function Trim(s: string): (r: string)
    ensures |r| == 0 || (!IsWhitespace(r[0]) && !IsWhitespace(r[|r| - 1]))
  {
    TrimEnd(TrimStart(s))
  }

  function TrimStart(s: string): (r: string)
    ensures |r| == 0 || !IsWhitespace(r[0])
    ensures exists k :: 0 <= k <= |s| && r == s[k..] && forall i :: 0 <= i < k ==> IsWhitespace(s[i])
  {
    if |s| > 0 && IsWhitespace(s[0]) then
      var r := TrimStart(s[1..]);
      var k :| 0 <= k <= |s[1..]| && r == s[1..][k..] && forall i :: 0 <= i < k ==> IsWhitespace(s[1..][i]);
      assert r == s[k + 1..];
      r
    else
      assert s == s[0..];
      s
  }

  function TrimEnd(s: string): (r: string)
    ensures |r| == 0 || !IsWhitespace(r[|r| - 1])
    ensures |s| > 0 && !IsWhitespace(s[0]) ==> |r| > 0 && r[0] == s[0]
    ensures exists k :: 0 <= k <= |s| && r == s[..k] && forall i :: k <= i < |s| ==> IsWhitespace(s[i])
  {
    if |s| > 0 && IsWhitespace(s[|s| - 1]) then
      var r := TrimEnd(s[..|s| - 1]);
      var k :| 0 <= k <= |s| - 1 && r == s[..|s| - 1][..k] &&
               forall i :: k <= i < |s| - 1 ==> IsWhitespace(s[i]);
      assert r == s[..k];
      r
    else
      assert s == s[..|s|];
      s
  }

  // ---------------------------------------------------------------------
  // Splitting on one character
  // ---------------------------------------------------------------------

  /** `s.split(sep)` for a one-character separator: always at least one part. */
  function Split(s: string, sep: char): (parts: seq<string>)
    ensures |parts| >= 1
    ensures forall k, i :: 0 <= k < |parts| && 0 <= i < |parts[k]| ==> parts[k][i] != sep
  {
    if |s| == 0 then [""]
    else
      var rest := Split(s[1..], sep);
      if s[0] == sep then [""] + rest
      else [[s[0]] + rest[0]] + rest[1..]
  }

  /** `parts.join(sep)`. */
  function Join(parts: seq<string>, sep: char): string
    requires |parts| >= 1
  {
    if |parts| == 1 then parts[0] else parts[0] + [sep] + Join(parts[1..], sep)
  }

  /** Splitting loses nothing: joining the parts back gives the string. */
  lemma {:induction false} JoinSplit(s: string, sep: char)
    ensures Join(Split(s, sep), sep) == s
  {
    if |s| > 0 {
      JoinSplit(s[1..], sep);
      var rest := Split(s[1..], sep);
      if s[0] == sep {
        assert ([""] + rest)[1..] == rest;
        assert Join([""] + rest, sep) == [sep] + Join(rest, sep);
        assert s == [s[0]] + s[1..];
      } else {
        var parts := [[s[0]] + rest[0]] + rest[1..];
        if |rest| == 1 {
          assert parts == [[s[0]] + rest[0]];
        } else {
          assert parts[1..] == rest[1..];
          assert Join(rest, sep) == rest[0] + [sep] + Join(rest[1..], sep);
        }
        assert s == [s[0]] + s[1..];
      }
    }
  }

  /** A string without the separator is a single part. */
  lemma {:induction false} SplitNoSeparator(s: string, sep: char)
    requires forall i :: 0 <= i < |s| ==> s[i] != sep
    ensures Split(s, sep) == [s]
  {
    if |s| > 0 {
      SplitNoSeparator(s[1..], sep);
      assert [s[0]] + s[1..] == s;
    }
  }

  /** Two separator-free pieces joined by the separator split back into those two pieces. */
  lemma {:induction false} SplitTwo(a: string, b: string, sep: char)
    requires forall i :: 0 <= i < |a| ==> a[i] != sep
    requires forall i :: 0 <= i < |b| ==> b[i] != sep
    ensures Split(a + [sep] + b, sep) == [a, b]
  {
    var s := a + [sep] + b;
    if |a| == 0 {
      assert s == [sep] + b;
      assert s[1..] == b;
      SplitNoSeparator(b, sep);
    } else {
      SplitTwo(a[1..], b, sep);
      assert s[1..] == a[1..] + [sep] + b;
      assert [a[0]] + a[1..] == a;
    }
  }

  // ---------------------------------------------------------------------
  // Facts behind `formatTitle`
  // ---------------------------------------------------------------------

  /** The inserted spaces are the only change `SpaceCaps` makes, one per capital. */
  lemma {:induction false} SpaceCapsFacts(s: string)
    requires NoWhitespace(s)
    ensures RemoveSpaces(SpaceCaps(s)) == s
    ensures OnlySpaces(SpaceCaps(s))
    ensures |SpaceCaps(s)| == |s| + CountUpper(s)
  {
    if |s| > 0 {
      SpaceCapsFacts(s[1..]);
      var t := SpaceCaps(s[1..]);
      if IsUpper(s[0]) {
        assert SpaceCaps(s) == [' '] + ([s[0]] + t);
        assert RemoveSpaces([' '] + ([s[0]] + t)) == RemoveSpaces([s[0]] + t);
        assert ([s[0]] + t)[1..] == t;
        assert RemoveSpaces([s[0]] + t) == [s[0]] + RemoveSpaces(t);
      } else {
        assert ([s[0]] + t)[1..] == t;
        assert RemoveSpaces([s[0]] + t) == [s[0]] + RemoveSpaces(t);
      }
      assert [s[0]] + s[1..] == s;
    }
  }

  /** Trimming a string whose only whitespace is spaces removes nothing but spaces. */
  lemma TrimKeepsNonSpaces(s: string)
    requires OnlySpaces(s)
    ensures RemoveSpaces(Trim(s)) == RemoveSpaces(s) && OnlySpaces(Trim(s))
  {
    TrimStartKeepsNonSpaces(s);
    TrimEndKeepsNonSpaces(TrimStart(s));
  }

  lemma TrimStartKeepsNonSpaces(s: string)
    requires OnlySpaces(s)
    ensures OnlySpaces(TrimStart(s)) && RemoveSpaces(TrimStart(s)) == RemoveSpaces(s)
  {
    var a := TrimStart(s);
    var k :| 0 <= k <= |s| && a == s[k..] && forall i :: 0 <= i < k ==> IsWhitespace(s[i]);
    AllSpacesPrefix(s, k);
    OnlySpacesDrop(s, k);
  }

  lemma OnlySpacesDrop(s: string, k: int)
    requires OnlySpaces(s) && 0 <= k <= |s|
    ensures OnlySpaces(s[k..])
  {
    forall i | 0 <= i < |s| - k ensures IsWhitespace(s[k..][i]) ==> s[k..][i] == ' ' {
      assert s[k..][i] == s[k + i];
    }
  }

  lemma TrimEndKeepsNonSpaces(s: string)
    requires OnlySpaces(s)
    ensures RemoveSpaces(TrimEnd(s)) == RemoveSpaces(s) && OnlySpaces(TrimEnd(s))
  {
    var b := TrimEnd(s);
    var j :| 0 <= j <= |s| && b == s[..j] && forall i :: j <= i < |s| ==> IsWhitespace(s[i]);
    AllSpacesSuffix(s, j);
    assert forall i :: 0 <= i < |b| ==> b[i] == s[i];
  }

  /** A string with no whitespace at either end is its own trim, so trimming is idempotent. */
  lemma TrimUnchanged(s: string)
    requires |s| == 0 || (!IsWhitespace(s[0]) && !IsWhitespace(s[|s| - 1]))
    ensures Trim(s) == s
  {
    assert TrimStart(s) == s;
    assert TrimEnd(s) == s;
  }

  lemma TrimIdempotent(s: string)
    ensures Trim(Trim(s)) == Trim(s)
  {
    TrimUnchanged(Trim(s));
  }

  /** Dropping a prefix of spaces does not change `RemoveSpaces`. */
  lemma {:induction false} AllSpacesPrefix(s: string, k: int)
    requires OnlySpaces(s) && 0 <= k <= |s| && forall i :: 0 <= i < k ==> IsWhitespace(s[i])
    ensures RemoveSpaces(s[k..]) == RemoveSpaces(s)
    decreases k
  {
    if k > 0 {
      assert s[0] == ' ';
      AllSpacesPrefix(s[1..], k - 1);
      assert s[1..][k - 1..] == s[k..];
    }
  }

  /** Dropping a suffix of spaces does not change `RemoveSpaces`. */
  lemma {:induction false} AllSpacesSuffix(s: string, j: int)
    requires OnlySpaces(s) && 0 <= j <= |s| && forall i :: j <= i < |s| ==> IsWhitespace(s[i])
    ensures RemoveSpaces(s[..j]) == RemoveSpaces(s)
    decreases |s|
  {
    if j == |s| {
      assert s[..j] == s;
    } else if j == 0 {
      assert s[0] == ' ';
      AllSpacesSuffix(s[1..], 0);
      assert s[..0] == s[1..][..0];
    } else {
      AllSpacesSuffix(s[1..], j - 1);
      assert s[1..][..j - 1] == s[..j][1..];
      assert s[..j][0] == s[0];
    }
  }

  // ---------------------------------------------------------------------
  // `formatTitle` of the building dialogs
  // ---------------------------------------------------------------------

  /** `formatTitle`: a space before each capital, the first character capitalised, then trimmed. */
  function FormatTitle(item: string): (t: string)
    ensures |t| == 0 || (!IsWhitespace(t[0]) && !IsWhitespace(t[|t| - 1]))
  {
    var spaced := SpaceCaps(item);
    Trim(CapFirst(spaced))
  }

  /**
   * For a key without whitespace, the title only differs from the key by its
   * capitalised first letter and the plain spaces put before capitals.
   */
  lemma FormatTitleKeepsLetters(item: string)
    requires NoWhitespace(item)
    ensures RemoveSpaces(FormatTitle(item)) == CapFirst(item)
    ensures OnlySpaces(FormatTitle(item))
  {
    var sc := SpaceCaps(item);
    SpaceCapsFacts(item);
    var cf := CapFirst(sc);
    if |item| > 0 {
      var tail := SpaceCaps(item[1..]);
      assert NoWhitespace(item[1..]) by {
        forall i | 0 <= i < |item| - 1 ensures !IsWhitespace(item[1..][i]) {
          assert item[1..][i] == item[i + 1];
        }
      }
      SpaceCapsFacts(item[1..]);
      if IsUpper(item[0]) {
        assert sc == [' ', item[0]] + tail;
        assert cf == sc;
        assert CapFirst(item) == item;
      } else {
        assert sc == [item[0]] + tail;
        assert !IsLineTerminator(item[0]);
        var c := ToUpper(item[0]);
        assert c != ' ' && !IsWhitespace(c);
        assert cf == [c] + tail;
        assert RemoveSpaces(cf) == [c] + RemoveSpaces(tail);
        assert CapFirst(item) == [c] + item[1..];
        assert OnlySpaces(cf) by {
          forall i | 0 <= i < |cf| ensures IsWhitespace(cf[i]) ==> cf[i] == ' ' {
            if i > 0 {
              assert cf[i] == tail[i - 1];
            }
          }
        }
      }
    }
    TrimKeepsNonSpaces(cf);
  }

  /** An item key in camel case, `readingDesk`, becomes the title "Reading Desk". */
  lemma FormatTitleExample()
    ensures FormatTitle("readingDesk") == "Reading Desk"
  {
    ExampleSpaced();
    ExampleCapitalised();
    ExampleTrimmed();
  }

  lemma ExampleSpaced()
    ensures SpaceCaps("readingDesk") == "reading Desk"
  {
    var a, b := "reading", "esk";
    SpaceCapsNoUpper(a);
    SpaceCapsNoUpper(b);
    SpaceCapsAround(a, 'D', b);
    assert a + ['D'] + b == "readingDesk";
    assert a + [' ', 'D'] + b == "reading Desk";
  }

  /** A single capital between two runs without capitals gets one space before it. */
  lemma SpaceCapsAround(a: string, c: char, b: string)
    requires SpaceCaps(a) == a && SpaceCaps(b) == b && IsUpper(c)
    ensures SpaceCaps(a + [c] + b) == a + [' ', c] + b
  {
    var cb := [c] + b;
    SpaceCapsUpperHead(c, b);
    SpaceCapsAppend(a, cb);
    assert a + [c] + b == a + cb;
    assert a + ([' ', c] + b) == a + [' ', c] + b;
  }

  /** A capital in front of text without capitals is the only place a space goes. */
  lemma SpaceCapsUpperHead(c: char, b: string)
    requires SpaceCaps(b) == b && IsUpper(c)
    ensures SpaceCaps([c] + b) == [' ', c] + b
  {
    var cb := [c] + b;
    assert cb[0] == c && cb[1..] == b;
    assert Spaced(c) == [' ', c];
  }

  lemma ExampleCapitalised()
    ensures CapFirst("reading Desk") == "Reading Desk"
  {
  }

  lemma ExampleTrimmed()
    ensures Trim("Reading Desk") == "Reading Desk"
  {
    TrimUnchanged("Reading Desk");
  }
}
