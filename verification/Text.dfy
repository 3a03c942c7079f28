/** Strings as the JavaScript runtime treats them: trimming, truthiness, decimal digits, code-unit order. */
module Text {

  datatype Option<+T> = None | Some(value: T)

  /** Lower-casing, the same in the database's insensitive comparison and in `toLowerCase`. */
  type Fold = string -> string

  /** The characters `String.prototype.trim` removes (white space and line terminators of ECMA-262). */
  predicate IsSpace(c: char) {
    || '\t' <= c <= '\r'
    || c == ' '
    || c == '\U{00A0}'
    || c == '\U{1680}'
    || '\U{2000}' <= c <= '\U{200A}'
    || c == '\U{2028}'
    || c == '\U{2029}'
    || c == '\U{202F}'
    || c == '\U{205F}'
    || c == '\U{3000}'
    || c == '\U{FEFF}'
  }

  /** By code point: tab to carriage return, space, no-break space, the Unicode spaces, line separators and the BOM. */
  lemma WhiteSpace(c: char)
    ensures IsSpace(c) <==>
      var n := c as int;
      || 9 <= n <= 13 || n == 32 || n == 160 || n == 5760 || 8192 <= n <= 8202
      || n == 8232 || n == 8233 || n == 8239 || n == 8287 || n == 12288 || n == 65279
  {
  }

  function TrimStart(s: string): string {
    if s != "" && IsSpace(s[0]) then TrimStart(s[1..]) else s
  }

  function TrimEnd(s: string): string {
    if s != "" && IsSpace(s[|s| - 1]) then TrimEnd(s[..|s| - 1]) else s
  }

  function Trim(s: string): string {
    TrimEnd(TrimStart(s))
  }

  /** `a || b` on strings: the empty string is the only falsy one. */
  function OrElse(a: string, b: string): string {
    if a != "" then a else b
  }

  /** A string is trimmed when it neither starts nor ends with white space. */
  predicate Trimmed(s: string) {
    s == "" || (!IsSpace(s[0]) && !IsSpace(s[|s| - 1]))
  }

  lemma {:induction false} TrimEndKeepsStart(s: string)
    requires s != "" && !IsSpace(s[0])
    ensures TrimEnd(s) != "" && TrimEnd(s)[0] == s[0] && !IsSpace(TrimEnd(s)[|TrimEnd(s)| - 1])
  {
    if IsSpace(s[|s| - 1]) {
      TrimEndKeepsStart(s[..|s| - 1]);
    }
  }

  lemma {:induction false} TrimStartStops(s: string)
    ensures TrimStart(s) == "" || !IsSpace(TrimStart(s)[0])
  {
    if s != "" && IsSpace(s[0]) {
      TrimStartStops(s[1..]);
    }
  }

  /** Trimming yields a trimmed string and leaves exactly the trimmed strings alone. */
  lemma {:induction false} TrimIsTrimmed(s: string)
    ensures Trimmed(Trim(s))
    ensures Trim(s) == s <==> Trimmed(s)
  {
    TrimStartStops(s);
    if TrimStart(s) != "" {
      TrimEndKeepsStart(TrimStart(s));
    }
  }

  predicate AllSpace(s: string) {
    forall i :: 0 <= i < |s| ==> IsSpace(s[i])
  }

  lemma {:induction false} TrimEndDrops(s: string) returns (b: string)
    ensures s == TrimEnd(s) + b && AllSpace(b)
  {
    b := "";
    if s != "" && IsSpace(s[|s| - 1]) {
      b := TrimEndDrops(s[..|s| - 1]);
      b := b + [s[|s| - 1]];
    }
  }

  /** Trimming takes away nothing but white space at the two ends. */
  lemma {:induction false} TrimTakesEnds(s: string) returns (a: string, b: string)
    ensures s == a + Trim(s) + b && AllSpace(a) && AllSpace(b)
  {
    if s != "" && IsSpace(s[0]) {
      a, b := TrimTakesEnds(s[1..]);
      a := [s[0]] + a;
    } else {
      b := TrimEndDrops(s);
      a := "";
    }
  }

  /** There is only one way to take white space off both ends and leave a trimmed text. */
  lemma {:induction false} OnlyTrim(s: string, a: string, core: string, b: string)
    requires s == a + core + b && AllSpace(a) && AllSpace(b) && Trimmed(core)
    ensures core == Trim(s)
  {
    if a != "" {
      assert s[0] == a[0] && s[1..] == a[1..] + core + b;
      OnlyTrim(s[1..], a[1..], core, b);
    } else if core == "" {
      assert s == b;
      AllSpaceTrims(s);
    } else {
      assert s[0] == core[0];
      OnlyTrimEnd(s, core, b);
    }
  }

  lemma {:induction false} AllSpaceTrims(s: string)
    requires AllSpace(s)
    ensures Trim(s) == ""
  {
    if s != "" {
      AllSpaceTrims(s[1..]);
    }
  }

  lemma {:induction false} OnlyTrimEnd(s: string, core: string, b: string)
    requires s == core + b && AllSpace(b) && core != "" && !IsSpace(core[|core| - 1])
    ensures core == TrimEnd(s)
  {
    if b != "" {
      assert s[|s| - 1] == b[|b| - 1] && s[..|s| - 1] == core + b[..|b| - 1];
      OnlyTrimEnd(s[..|s| - 1], core, b[..|b| - 1]);
    } else {
      assert s == core;
    }
  }

  /** Strict lexicographic order on character codes, JavaScript's `<` on strings. */
  predicate Less(a: string, b: string) {
    b != "" && (a == "" || a[0] < b[0] || (a[0] == b[0] && Less(a[1..], b[1..])))
  }

  /** The first difference decides, or the end of the shorter text. */
  lemma {:induction false} LessMeaning(a: string, b: string)
    ensures Less(a, b) <==>
      exists k :: 0 <= k <= |a| && k < |b| && a[..k] == b[..k] && (k == |a| || a[k] < b[k])
  {
    if a != "" && b != "" && a[0] == b[0] {
      LessMeaning(a[1..], b[1..]);
      if Less(a, b) {
        var k :| 0 <= k <= |a[1..]| && k < |b[1..]| && a[1..][..k] == b[1..][..k]
          && (k == |a[1..]| || a[1..][k] < b[1..][k]);
        assert a[..k + 1] == [a[0]] + a[1..][..k] && b[..k + 1] == [b[0]] + b[1..][..k];
      }
      if k :| 0 <= k <= |a| && k < |b| && a[..k] == b[..k] && (k == |a| || a[k] < b[k]) {
        assert k > 0;
        assert a[1..][..k - 1] == a[..k][1..] && b[1..][..k - 1] == b[..k][1..];
      }
    } else if a != "" && b != "" {
      if k :| 0 <= k <= |a| && k < |b| && a[..k] == b[..k] && (k == |a| || a[k] < b[k]) {
        assert k == 0;
      }
      assert a[..0] == b[..0];
    } else {
      assert a[..0] == b[..0];
    }
  }

  function Join(parts: seq<string>, separator: char): string {
    if parts == [] then ""
    else if |parts| == 1 then parts[0]
    else parts[0] + [separator] + Join(parts[1..], separator)
  }

  /** `s.split(separator)` for a separator of one character. */
  function Split(s: string, separator: char): (parts: seq<string>)
    ensures parts != []
  {
    if s == "" then [""]
    else
      var rest := Split(s[1..], separator);
      if s[0] == separator then [""] + rest else [[s[0]] + rest[0]] + rest[1..]
  }

  /** The parts hold no separator, and joined by it they give the text back. */
  lemma {:induction false} SplitMeaning(s: string, separator: char)
    ensures Join(Split(s, separator), separator) == s
    ensures forall part <- Split(s, separator) :: separator !in part
  {
    if s != "" {
      SplitMeaning(s[1..], separator);
      var rest := Split(s[1..], separator);
      assert rest == [rest[0]] + rest[1..];
      if s[0] == separator {
        assert ([""] + rest)[1..] == rest;
      } else {
        assert ([[s[0]] + rest[0]] + rest[1..])[1..] == rest[1..];
        forall part <- Split(s, separator) ensures separator !in part {
          if part != [s[0]] + rest[0] {
            assert part in rest[1..] && part in rest;
          } else {
            assert rest[0] in rest;
          }
        }
      }
    }
  }
}
