/** The parts of Go's `strings` and `strconv` packages that the probes use to
    take lines of OS text apart. Text is a sequence of Unicode code points. */
module GoStrings {
  import opened Common

  /** `unicode.IsSpace`: the code points with Unicode's White_Space property. */
  predicate IsSpace(c: char) {
    var n := c as int;
    (9 <= n <= 13) || n == 0x20 || n == 0x85 || n == 0xA0 || n == 0x1680
    || (0x2000 <= n <= 0x200A) || n == 0x2028 || n == 0x2029 || n == 0x202F
    || n == 0x205F || n == 0x3000
  }

  predicate NoSpace(s: string) {
    forall i :: 0 <= i < |s| ==> !IsSpace(s[i])
  }

  predicate AllSpace(s: string) {
    forall i :: 0 <= i < |s| ==> IsSpace(s[i])
  }

  /** `strings.HasPrefix` */
  predicate HasPrefix(s: string, prefix: string) {
    prefix <= s
  }

  /** `strings.TrimPrefix` */
  function TrimPrefix(s: string, prefix: string): (r: string)
    ensures HasPrefix(s, prefix) ==> prefix + r == s
    ensures !HasPrefix(s, prefix) ==> r == s
  {
    if HasPrefix(s, prefix) then s[|prefix|..] else s
  }

  // ---------------------------------------------------------------------
  // Trimming

  /** `strings.TrimLeftFunc(s, unicode.IsSpace)` */
  function TrimLeftSpace(s: string): (r: string)
    ensures |r| <= |s| && r == s[|s| - |r|..]
    ensures AllSpace(s[..|s| - |r|])
    ensures r == [] || !IsSpace(r[0])
  {
    if s == [] || !IsSpace(s[0]) then s else TrimLeftSpace(s[1..])
  }

  /** `strings.TrimRightFunc(s, unicode.IsSpace)` */
  function TrimRightSpace(s: string): (r: string)
    ensures |r| <= |s| && r == s[..|r|]
    ensures AllSpace(s[|r|..])
    ensures r == [] || !IsSpace(r[|r| - 1])
  {
    if s == [] || !IsSpace(s[|s| - 1]) then s else TrimRightSpace(s[..|s| - 1])
  }

  /** `strings.TrimSpace`: drops leading and trailing white space. */
  function TrimSpace(s: string): (r: string)
    ensures r == [] || (!IsSpace(r[0]) && !IsSpace(r[|r| - 1]))
  {
    TrimRightSpace(TrimLeftSpace(s))
  }

  /** Trimming only removes characters: whatever it keeps was in `s`. */
  lemma TrimSpaceKeeps(s: string)
    ensures forall c :: c in TrimSpace(s) ==> c in s
  {
    var l := TrimLeftSpace(s);
    var r := TrimRightSpace(l);
    forall c | c in r ensures c in s {
      var i :| 0 <= i < |r| && r[i] == c;
      assert l[i] == c;
      assert s[|s| - |l| + i] == c;
    }
  }

  lemma {:induction false} AllSpaceTrimsToEmpty(s: string)
    requires AllSpace(s)
    ensures TrimLeftSpace(s) == []
  {
    if s != [] { AllSpaceTrimsToEmpty(s[1..]); }
  }

  /** `TrimSpace(s) == ""` exactly when `s` is made of white space only. */
  lemma TrimSpaceEmptyIffAllSpace(s: string)
    ensures TrimSpace(s) == [] <==> AllSpace(s)
  {
    var l := TrimLeftSpace(s);
    if AllSpace(s) {
      AllSpaceTrimsToEmpty(s);
    }
    if TrimSpace(s) == [] {
      assert l[|TrimRightSpace(l)|..] == l;
      assert l == [];
      assert s == s[..|s| - |l|];
    }
  }

  /** `strings.TrimLeft(s, cutset)` for a one-character cutset. */
  function TrimLeftChar(s: string, c: char): (r: string)
    ensures |r| <= |s| && r == s[|s| - |r|..]
    ensures forall i :: 0 <= i < |s| - |r| ==> s[i] == c
    ensures r == [] || r[0] != c
  {
    if s == [] || s[0] != c then s else TrimLeftChar(s[1..], c)
  }

  /** `strings.TrimRight(s, cutset)` for a one-character cutset. */
  function TrimRightChar(s: string, c: char): (r: string)
    ensures |r| <= |s| && r == s[..|r|]
    ensures forall i :: |r| <= i < |s| ==> s[i] == c
    ensures r == [] || r[|r| - 1] != c
  {
    if s == [] || s[|s| - 1] != c then s else TrimRightChar(s[..|s| - 1], c)
  }

  /** `strings.Trim(s, cutset)` for a one-character cutset: drops every
      leading and every trailing occurrence of `c`, and nothing else. */
  function TrimChar(s: string, c: char): (r: string)
    ensures r == [] || (r[0] != c && r[|r| - 1] != c)
  {
    TrimRightChar(TrimLeftChar(s, c), c)
  }

  /** Trimming keeps a middle slice of the text and drops only copies of
      `c`: `k` copies in front of it and the rest behind it. */
  lemma TrimCharSlice(s: string, c: char) returns (k: nat)
    ensures var r := TrimChar(s, c);
      k + |r| <= |s| && s[k..k + |r|] == r
      && (forall i :: 0 <= i < k ==> s[i] == c)
      && (forall i :: k + |r| <= i < |s| ==> s[i] == c)
  {
    var l := TrimLeftChar(s, c);
    var r := TrimRightChar(l, c);
    k := |s| - |l|;
    assert s[k..k + |r|] == r;
    forall i | k + |r| <= i < |s| ensures s[i] == c {
      assert s[i] == l[i - k];
    }
  }

  /** A text that neither starts nor ends with `c` is left as it is. */
  lemma TrimCharUnquoted(s: string, c: char)
    requires s != [] && s[0] != c && s[|s| - 1] != c
    ensures TrimChar(s, c) == s
  {
    assert TrimLeftChar(s, c) == s;
  }

  /** One pair of quotes around such a text is removed. */
  lemma TrimCharQuoted(s: string, c: char)
    requires s != [] && s[0] != c && s[|s| - 1] != c
    ensures TrimChar([c] + s + [c], c) == s
  {
    var q := [c] + s + [c];
    assert q[1..] == s + [c];
    assert TrimLeftChar(q, c) == s + [c];
    assert (s + [c])[..|s|] == s;
    assert TrimRightChar(s + [c], c) == TrimRightChar(s, c) == s;
  }

  // ---------------------------------------------------------------------
  // Fields, Split, Join

  /** The longest prefix of `s` that holds no white space. */
  function Word(s: string): (w: string)
    ensures w <= s && NoSpace(w)
    ensures |w| == |s| || IsSpace(s[|w|])
  {
    if s == [] || IsSpace(s[0]) then [] else [s[0]] + Word(s[1..])
  }

  /** The characters of `s` that are not white space, in order. */
  function WithoutSpace(s: string): (r: string)
    ensures NoSpace(r) && |r| <= |s|
  {
    if s == [] then []
    else (if IsSpace(s[0]) then [] else [s[0]]) + WithoutSpace(s[1..])
  }

  /** The strings of `parts` written one after another. */
  function Concat(parts: seq<string>): string {
    if parts == [] then [] else parts[0] + Concat(parts[1..])
  }

  /** Dropping white space from a text keeps its first word whole. */
  lemma {:induction false} WithoutSpaceOfWord(s: string)
    ensures WithoutSpace(s) == Word(s) + WithoutSpace(s[|Word(s)|..])
    decreases |s|
  {
    if s != [] && !IsSpace(s[0]) {
      var w := Word(s[1..]);
      WithoutSpaceOfWord(s[1..]);
      assert Word(s) == [s[0]] + w;
      assert s[1..][|w|..] == s[|Word(s)|..];
    }
  }

  /** `strings.Fields`: the maximal runs of non-white-space characters;
      together they hold every character of `s` that is not white space. */
  function Fields(s: string): (r: seq<string>)
    ensures forall i :: 0 <= i < |r| ==> r[i] != [] && NoSpace(r[i])
    ensures Concat(r) == WithoutSpace(s)
    decreases |s|
  {
    if s == [] then []
    else if IsSpace(s[0]) then Fields(s[1..])
    else
      var w := Word(s);
      WithoutSpaceOfWord(s);
      assert ([w] + Fields(s[|w|..]))[1..] == Fields(s[|w|..]);
      [w] + Fields(s[|w|..])
  }

  /** A word ends at the first white space. */
  lemma {:induction false} WordBeforeSpace(a: string, c: char, b: string)
    requires IsSpace(c)
    ensures Word(a + [c] + b) == Word(a)
    decreases |a|
  {
    if a == [] {
      assert (a + [c] + b)[0] == c;
    } else if !IsSpace(a[0]) {
      assert (a + [c] + b)[1..] == a[1..] + [c] + b;
      WordBeforeSpace(a[1..], c, b);
    }
  }

  /** White space separates fields: the fields on either side of it are
      the fields of the whole. */
  lemma {:induction false} FieldsAroundSpace(a: string, c: char, b: string)
    requires IsSpace(c)
    ensures Fields(a + [c] + b) == Fields(a) + Fields(b)
    decreases |a|
  {
    var s := a + [c] + b;
    if a == [] {
      assert s[0] == c && s[1..] == b;
    } else if IsSpace(a[0]) {
      assert s[1..] == a[1..] + [c] + b;
      FieldsAroundSpace(a[1..], c, b);
    } else {
      var w := Word(a);
      WordBeforeSpace(a, c, b);
      assert s[|w|..] == a[|w|..] + [c] + b;
      FieldsAroundSpace(a[|w|..], c, b);
    }
  }

  /** A string has no fields exactly when it is white space only. */
  lemma {:induction false} FieldsEmptyIffAllSpace(s: string)
    ensures Fields(s) == [] <==> AllSpace(s)
    decreases |s|
  {
    if s != [] && IsSpace(s[0]) {
      FieldsEmptyIffAllSpace(s[1..]);
      if AllSpace(s[1..]) {
        forall i | 0 <= i < |s| ensures IsSpace(s[i]) {
          if i > 0 { assert s[i] == s[1..][i - 1]; }
        }
      }
    }
  }

  lemma WordOfJoin(w: string, rest: string)
    requires w != [] && NoSpace(w)
    ensures Word(w + " " + rest) == w
    decreases |w|
  {
    if |w| > 1 {
      assert (w + " " + rest)[1..] == w[1..] + " " + rest;
      WordOfJoin(w[1..], rest);
    } else {
      assert (w + " " + rest)[1..] == " " + rest;
    }
  }

  /** `strings.Join` */
  function Join(parts: seq<string>, sep: string): string {
    if parts == [] then []
    else if |parts| == 1 then parts[0]
    else parts[0] + sep + Join(parts[1..], sep)
  }

  /** Joining fields with single spaces and splitting with `Fields` gives
      them back: the round trip that a schedule made of crontab fields keeps. */
  lemma {:induction false} FieldsOfJoin(parts: seq<string>)
    requires forall i :: 0 <= i < |parts| ==> parts[i] != [] && NoSpace(parts[i])
    ensures Fields(Join(parts, " ")) == parts
  {
    if |parts| == 1 {
      var w := parts[0];
      assert Word(w + " " + []) == w by { WordOfJoin(w, []); }
      assert Word(w) == w by { assert w + " " + [] == w + " "; WordPrefixOfSpace(w); }
      assert w[|w|..] == [];
    } else if |parts| > 1 {
      var w, rest := parts[0], Join(parts[1..], " ");
      var s := w + " " + rest;
      WordOfJoin(w, rest);
      assert s[|w|..] == " " + rest;
      assert (" " + rest)[1..] == rest;
      FieldsOfJoin(parts[1..]);
      assert Fields(s) == [w] + Fields(" " + rest);
      assert parts == [w] + parts[1..];
    }
  }

  lemma WordPrefixOfSpace(w: string)
    requires w != [] && NoSpace(w)
    ensures Word(w) == w
    decreases |w|
  {
    if |w| > 1 { WordPrefixOfSpace(w[1..]); }
  }

  /** `strings.Split(s, sep)` for a one-character separator. */
  function Split(s: string, sep: char): (r: seq<string>)
    ensures |r| >= 1
    ensures forall i :: 0 <= i < |r| ==> sep !in r[i]
  {
    if s == [] then [[]]
    else
      var rest := Split(s[1..], sep);
      if s[0] == sep then [[]] + rest else [[s[0]] + rest[0]] + rest[1..]
  }

  /** Split and Join are inverse: no character is lost or added. */
  lemma {:induction false} JoinOfSplit(s: string, sep: char)
    ensures Join(Split(s, sep), [sep]) == s
  {
    if s != [] {
      var rest := Split(s[1..], sep);
      JoinOfSplit(s[1..], sep);
      if s[0] == sep {
        assert Split(s, sep)[1..] == rest;
      } else {
        var r := Split(s, sep);
        assert r[0] == [s[0]] + rest[0];
        if |rest| > 1 {
          assert r[1..] == rest[1..];
          assert Join(rest, [sep]) == rest[0] + [sep] + Join(rest[1..], [sep]);
        }
      }
    }
  }

  /** The first piece is the text up to the first separator, or all of it. */
  lemma {:induction false} SplitHead(s: string, sep: char)
    ensures var head := Split(s, sep)[0];
      head <= s && (|head| == |s| || s[|head|] == sep)
  {
    if s != [] && s[0] != sep {
      SplitHead(s[1..], sep);
      var rest := Split(s[1..], sep);
      assert Split(s, sep)[0] == [s[0]] + rest[0];
    }
  }

  /** Splitting text that starts with a separator-free `key` and then the
      separator puts `key` first and the rest of the text after it. */
  lemma {:induction false} SplitAfterKey(key: string, sep: char, rest: string)
    requires sep !in key
    ensures Split(key + [sep] + rest, sep) == [key] + Split(rest, sep)
    decreases |key|
  {
    var s := key + [sep] + rest;
    if key == [] {
      assert s[1..] == rest;
    } else {
      assert s[1..] == key[1..] + [sep] + rest;
      SplitAfterKey(key[1..], sep, rest);
      assert [key[0]] + key[1..] == key;
    }
  }

  // ---------------------------------------------------------------------
  // Decimal integers

  predicate IsDigit(c: char) { '0' <= c <= '9' }

  predicate AllDigits(s: string) {
    forall i :: 0 <= i < |s| ==> IsDigit(s[i])
  }

  /** The value of a string of decimal digits, read most significant first. */
  function DigitsValue(s: string): (v: nat)
    requires AllDigits(s)
  {
    if s == [] then 0
    else DigitsValue(s[..|s| - 1]) * 10 + (s[|s| - 1] as int - '0' as int)
  }

  /** The part of a numeral after an optional leading sign. */
  function Unsigned(s: string): (body: string)
    ensures body == s || (s != [] && (s[0] == '-' || s[0] == '+') && body == s[1..])
  {
    if s != [] && (s[0] == '-' || s[0] == '+') then s[1..] else s
  }

  /** `strconv.Atoi` on a 64-bit platform: an optional sign, then at least
      one decimal digit and nothing else, with a value that fits an int64. */
  function Atoi(s: string): (r: Option<int>)
    ensures r.Some? ==> IsInt64(r.value)
    ensures r.Some? ==> s != [] && Unsigned(s) != [] && AllDigits(Unsigned(s))
    ensures r.Some? ==>
      r.value == (if s[0] == '-' then -(DigitsValue(Unsigned(s)) as int) else DigitsValue(Unsigned(s)))
    ensures Unsigned(s) != [] && AllDigits(Unsigned(s)) ==>
      (r.Some? <==>
        IsInt64(if s[0] == '-' then -(DigitsValue(Unsigned(s)) as int) else DigitsValue(Unsigned(s))))
  {
    var body := Unsigned(s);
    if body == [] || !AllDigits(body) then None
    else
      var magnitude: int := DigitsValue(body);
      var v := if s[0] == '-' then -magnitude else magnitude;
      if IsInt64(v) then Some(v) else None
  }

  function DigitChar(d: nat): (c: char)
    requires d < 10
    ensures IsDigit(c) && c as int - '0' as int == d
  {
    ('0' as int + d) as char
  }

  /** The decimal digits of a natural number, without leading zeros. */
  function NatDigits(n: nat): (s: string)
    ensures s != [] && AllDigits(s)
  {
    if n < 10 then [DigitChar(n)] else NatDigits(n / 10) + [DigitChar(n % 10)]
  }

  /** `strconv.Itoa`, and `fmt.Sprintf("%d", n)` */
  function Itoa(n: int): string {
    if n < 0 then "-" + NatDigits(-n) else NatDigits(n)
  }

  lemma {:induction false} NatDigitsValue(n: nat)
    ensures DigitsValue(NatDigits(n)) == n
  {
    if n >= 10 {
      var s := NatDigits(n);
      assert s[..|s| - 1] == NatDigits(n / 10);
      NatDigitsValue(n / 10);
    }
  }

  /** Atoi reads back what Itoa writes, for every int64. */
  lemma AtoiOfItoa(n: int)
    requires IsInt64(n)
    ensures Atoi(Itoa(n)) == Some(n)
  {
    var s := Itoa(n);
    if n < 0 {
      var d := NatDigits(-n);
      NatDigitsValue(-n);
      assert s == "-" + d && s[0] == '-' && s[1..] == d;
    } else {
      NatDigitsValue(n);
      assert IsDigit(s[0]);
    }
  }
}
