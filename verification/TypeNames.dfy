/** Names of generated EIP-712 types (ethereum/eip712/types.go): the sanitiser that
    turns a path prefix into a type name, and the decimal suffixes. */
module TypeNames {

  // -------------------------------------------------------------------- pieces

  /** strings.Split on a single character. */
  function Split(s: string, c: char): (parts: seq<string>)
    ensures |parts| >= 1
  {
    if s == "" then [""]
    else
      var rest := Split(s[1..], c);
      if s[0] == c then [""] + rest else [[s[0]] + rest[0]] + rest[1..]
  }

  predicate IsLetter(c: char) {
    'a' <= c <= 'z' || 'A' <= c <= 'Z'
  }

  function Upper(c: char): char {
    if 'a' <= c <= 'z' then (c as int - 32) as char else c
  }

  /** The title caser on an identifier sub-part: its first letter in upper case. */
  function Title(s: string): string {
    if s == "" then ""
    else if IsLetter(s[0]) then [Upper(s[0])] + s[1..]
    else [s[0]] + Title(s[1..])
  }

  function TitleAll(subparts: seq<string>): string {
    if subparts == [] then "" else Title(subparts[0]) + TitleAll(subparts[1..])
  }

  /** One dot-separated part of a prefix. */
  function SanitizePart(part: string): string {
    if part == "_" then "Type" else TitleAll(Split(part, '_'))
  }

  function SanitizeParts(parts: seq<string>): string {
    if parts == [] then "" else SanitizePart(parts[0]) + SanitizeParts(parts[1..])
  }

  /** sanitizeTypedef: `_.foo_bar.baz` becomes `TypeFooBarBaz`. */
  function Sanitize(s: string): string {
    SanitizeParts(Split(s, '.'))
  }

  /** fmt's %d on a non-negative number. */
  function Dec(n: nat): (s: string)
    ensures |s| >= 1
  {
    var digit := ('0' as int + n % 10) as char;
    if n < 10 then [digit] else Dec(n / 10) + [digit]
  }

  /** The prefix of a sub-object: the root mark or a path starting at it. */
  predicate IsPrefix(p: string) {
    p == "_" || (|p| >= 2 && p[0] == '_' && p[1] == '.')
  }

  /** Every generated type name starts like this; the four fixed names do not. */
  predicate IsTypeName(t: string) {
    |t| >= 4 && t[..4] == "Type"
  }

  predicate NoSeparators(s: string) {
    '.' !in s && '_' !in s
  }

  // ------------------------------------------------------------------- methods

  lemma {:induction false} TitleAllNext(ps: seq<string>, i: nat)
    requires i < |ps|
    ensures TitleAll(ps[i..]) == Title(ps[i]) + TitleAll(ps[i + 1..])
  {
    assert ps[i..][1..] == ps[i + 1..];
  }

  lemma {:induction false} SanitizePartsNext(ps: seq<string>, i: nat)
    requires i < |ps|
    ensures SanitizeParts(ps[i..]) == SanitizePart(ps[i]) + SanitizeParts(ps[i + 1..])
  {
    assert ps[i..][1..] == ps[i + 1..];
  }

  /** The inner loop of sanitizeTypedef. */
  method WriteSubparts(subparts: seq<string>) returns (buf: string)
    ensures buf == TitleAll(subparts)
  {
    hide Title, TitleAll;
    assert TitleAll([]) == "" by { TitleAllEmpty(); }
    buf := "";
    for j := 0 to |subparts|
      invariant buf + TitleAll(subparts[j..]) == TitleAll(subparts)
    {
      TitleAllNext(subparts, j);
      buf := buf + Title(subparts[j]);
    }
    assert subparts[|subparts|..] == [];
  }

  lemma {:induction false} TitleAllEmpty()
    ensures TitleAll([]) == "" && SanitizeParts([]) == ""
  {
  }

  /** sanitizeTypedef, writing into a buffer part by part. */
  method SanitizeTypedef(str: string) returns (buf: string)
    ensures buf == Sanitize(str)
  {
    hide Split, TitleAll, SanitizeParts;
    TitleAllEmpty();
    buf := "";
    var parts := Split(str, '.');
    assert parts[0..] == parts;
    for i := 0 to |parts|
      invariant buf + SanitizeParts(parts[i..]) == Sanitize(str)
    {
      SanitizePartsNext(parts, i);
      var part := parts[i];
      if part == "_" {
        buf := buf + "Type";
      } else {
        var written := WriteSubparts(Split(part, '_'));
        buf := buf + written;
      }
    }
    assert parts[|parts|..] == [];
  }

  // ------------------------------------------------------- what the sanitiser keeps

  lemma {:induction false} SplitParts(s: string, c: char)
    ensures forall p, x :: p in Split(s, c) && x in p ==> x in s && x != c
  {
    if s != "" {
      var rest := Split(s[1..], c);
      SplitParts(s[1..], c);
      forall p, x | p in Split(s, c) && x in p ensures x in s && x != c {
        if s[0] == c {
          assert p in rest;
          assert x in s[1..];
        } else if p in rest {
          assert x in s[1..];
        } else {
          assert p == [s[0]] + rest[0] && rest[0] in rest;
          if x != s[0] { assert x in rest[0] && x in s[1..]; }
        }
      }
    }
  }

  lemma {:induction false} SplitNone(s: string, c: char)
    requires c !in s
    ensures Split(s, c) == [s]
  {
    if s != "" {
      SplitNone(s[1..], c);
      assert [s[0]] + s[1..] == s;
    }
  }

  lemma {:induction false} TitleNoSeparators(s: string)
    requires NoSeparators(s)
    ensures NoSeparators(Title(s))
  {
    if s != "" && !IsLetter(s[0]) { TitleNoSeparators(s[1..]); }
  }

  lemma {:induction false} TitleAllNoSeparators(subparts: seq<string>)
    requires forall p :: p in subparts ==> NoSeparators(p)
    ensures NoSeparators(TitleAll(subparts))
  {
    if subparts != [] {
      TitleNoSeparators(subparts[0]);
      TitleAllNoSeparators(subparts[1..]);
    }
  }

  lemma {:induction false} SanitizePartNoSeparators(part: string)
    requires '.' !in part
    ensures NoSeparators(SanitizePart(part))
  {
    if part != "_" {
      SplitParts(part, '_');
      TitleAllNoSeparators(Split(part, '_'));
    }
  }

  lemma {:induction false} SanitizePartsNoSeparators(parts: seq<string>)
    requires forall p :: p in parts ==> '.' !in p
    ensures NoSeparators(SanitizeParts(parts))
  {
    if parts != [] {
      SanitizePartNoSeparators(parts[0]);
      SanitizePartsNoSeparators(parts[1..]);
    }
  }

  /** Whatever goes in, no separator comes out; a prefix yields a type name. */
  lemma {:induction false} SanitizeShape(s: string)
    ensures NoSeparators(Sanitize(s))
    ensures IsPrefix(s) ==> IsTypeName(Sanitize(s))
  {
    SplitParts(s, '.');
    SanitizePartsNoSeparators(Split(s, '.'));
    if IsPrefix(s) {
      PrefixFirst(s);
      var parts := Split(s, '.');
      assert Sanitize(s) == "Type" + SanitizeParts(parts[1..]);
    }
  }

  lemma {:induction false} PrefixFirst(s: string)
    requires IsPrefix(s)
    ensures Split(s, '.')[0] == "_"
  {
    if s != "_" {
      assert s[1..][0] == '.';
      assert Split(s[1..], '.')[0] == "";
    }
  }

  lemma {:induction false} DecDigits(n: nat)
    ensures forall c :: c in Dec(n) ==> '0' <= c <= '9'
  {
    if n >= 10 { DecDigits(n / 10); }
  }

  lemma {:induction false} DecInjective(m: nat, n: nat)
    requires Dec(m) == Dec(n)
    ensures m == n
  {
    var a, b := Dec(m), Dec(n);
    assert (m < 10 <==> |a| == 1) && (n < 10 <==> |b| == 1);
    assert a[|a| - 1] == b[|b| - 1];
    assert m % 10 == n % 10;
    if m >= 10 && n >= 10 {
      assert Dec(m / 10) == a[..|a| - 1] == b[..|b| - 1] == Dec(n / 10);
      DecInjective(m / 10, n / 10);
    }
  }

  /** The second sanitising pass: a sanitised prefix with a decimal suffix is a
      fixed point, so the name a parent records is the key of the stored type. */
  lemma {:induction false} SanitizeFixesNames(p: string, i: nat)
    requires IsPrefix(p)
    ensures Sanitize(Sanitize(p) + Dec(i)) == Sanitize(p) + Dec(i)
  {
    SanitizeShape(p);
    DecDigits(i);
    var t := Sanitize(p) + Dec(i);
    assert NoSeparators(t);
    SplitNone(t, '.');
    SplitNone(t, '_');
    assert t[0] == Sanitize(p)[..4][0] == 'T';
    assert Title(t) == [t[0]] + t[1..] == t;
    assert TitleAll([t]) == Title(t) + TitleAll([t][1..]);
    assert SanitizeParts([t]) == SanitizePart(t) + SanitizeParts([t][1..]);
  }

  // ---------------------------------------------------------- what the names spell

  predicate IsDigits(s: string) {
    forall i :: 0 <= i < |s| ==> '0' <= s[i] <= '9'
  }

  /** The number a string of digits spells. */
  function DecimalValue(s: string): nat
    requires IsDigits(s)
  {
    if s == "" then 0
    else
      10 * DecimalValue(s[..|s| - 1]) + (s[|s| - 1] as int - '0' as int)
  }

  /** The suffix spells its number, without leading zeros. */
  lemma {:induction false} DecValue(n: nat)
    ensures IsDigits(Dec(n)) && DecimalValue(Dec(n)) == n && (n > 0 ==> Dec(n)[0] != '0')
  {
    DecDigits(n);
    var s := Dec(n);
    var front := s[..|s| - 1];
    if n >= 10 {
      DecValue(n / 10);
      assert front == Dec(n / 10);
    } else {
      assert front == "";
    }
  }

  /** Upper case of a letter is the same letter of the other alphabet. */
  lemma {:induction false} UpperSpec(c: char)
    requires IsLetter(c)
    ensures 'A' <= Upper(c) <= 'Z'
    ensures 'a' <= c <= 'z' ==> Upper(c) as int - 'A' as int == c as int - 'a' as int
    ensures 'A' <= c <= 'Z' ==> Upper(c) == c
  {
  }

  lemma {:induction false} TitleNext(s: string)
    requires s != ""
    ensures Title(s) == if IsLetter(s[0]) then [Upper(s[0])] + s[1..] else [s[0]] + Title(s[1..])
  {
  }

  /** Titling puts the first letter into upper case and changes nothing else. */
  lemma {:induction false} TitleSpec(pre: string, c: char, post: string)
    requires IsLetter(c) && forall x :: x in pre ==> !IsLetter(x)
    ensures Title(pre + [c] + post) == pre + [Upper(c)] + post && Title(pre) == pre
  {
    var s := pre + [c] + post;
    TitleNext(s);
    if pre == "" {
      assert s[0] == c && s[1..] == post;
    } else {
      TitleNext(pre);
      assert pre[0] in pre && s[0] == pre[0] && s[1..] == pre[1..] + [c] + post;
      TitleSpec(pre[1..], c, post);
      hide Title, IsLetter, Upper;
      assert pre == [pre[0]] + pre[1..];
      assert pre + [Upper(c)] + post == [pre[0]] + (pre[1..] + [Upper(c)] + post);
    }
  }

  lemma {:induction false} SplitNext(s: string, c: char)
    requires s != ""
    ensures var rest := Split(s[1..], c);
            Split(s, c) == if s[0] == c then [""] + rest else [[s[0]] + rest[0]] + rest[1..]
  {
  }

  lemma {:induction false} FirstOnto(x: char, p: seq<string>, q: seq<string>)
    requires |p| >= 1
    ensures [[x] + (p + q)[0]] + (p + q)[1..] == ([[x] + p[0]] + p[1..]) + q
    ensures [""] + (p + q) == ([""] + p) + q
  {
  }

  /** Splitting a joined string splits both sides. */
  lemma {:induction false} SplitJoin(a: string, c: char, b: string)
    ensures Split(a + [c] + b, c) == Split(a, c) + Split(b, c)
  {
    var s := a + [c] + b;
    SplitNext(s, c);
    if a == "" {
      assert s[0] == c && s[1..] == b && Split(a, c) == [""];
    } else {
      SplitNext(a, c);
      assert s[0] == a[0] && s[1..] == a[1..] + [c] + b;
      hide Split;
      SplitJoin(a[1..], c, b);
      FirstOnto(a[0], Split(a[1..], c), Split(b, c));
    }
  }

  lemma {:induction false} SanitizePartsConcat(ps: seq<string>, qs: seq<string>)
    ensures SanitizeParts(ps + qs) == SanitizeParts(ps) + SanitizeParts(qs)
  {
    hide SanitizePart;
    if ps == [] {
      assert ps + qs == qs;
    } else {
      var first, rest := SanitizePart(ps[0]), SanitizeParts(ps[1..]);
      SanitizePartsConcat(ps[1..], qs);
      assert (ps + qs)[0] == ps[0] && (ps + qs)[1..] == ps[1..] + qs;
      assert SanitizeParts(ps + qs) == first + (rest + SanitizeParts(qs));
    }
  }

  lemma {:induction false} TitleAllConcat(ps: seq<string>, qs: seq<string>)
    ensures TitleAll(ps + qs) == TitleAll(ps) + TitleAll(qs)
  {
    hide Title;
    if ps == [] {
      assert ps + qs == qs;
    } else {
      var first, rest := Title(ps[0]), TitleAll(ps[1..]);
      TitleAllConcat(ps[1..], qs);
      assert (ps + qs)[0] == ps[0] && (ps + qs)[1..] == ps[1..] + qs;
      assert TitleAll(ps + qs) == first + (rest + TitleAll(qs));
    }
  }

  /** A field name in a type name: its words between underscores, each titled. */
  function Camel(field: string): string {
    TitleAll(Split(field, '_'))
  }

  lemma {:induction false} CamelWords(a: string, b: string)
    ensures Camel(a + "_" + b) == Camel(a) + Camel(b)
    ensures '_' !in a ==> Camel(a) == Title(a)
  {
    hide Title, Split, TitleAll;
    SplitJoin(a, '_', b);
    TitleAllConcat(Split(a, '_'), Split(b, '_'));
    if '_' !in a {
      SplitNone(a, '_');
      TitleOne(a);
    }
  }

  lemma {:induction false} TitleOne(a: string)
    ensures TitleAll([a]) == Title(a)
  {
    assert [a][1..] == [];
  }

  lemma {:induction false} SanitizeOne(part: string)
    ensures SanitizeParts([part]) == SanitizePart(part)
  {
    assert [part][1..] == [];
  }

  /** The name of a path is the names of its fields one after the other, behind Type. */
  lemma {:induction false} PathName(path: string, field: string)
    requires '.' !in field
    ensures Sanitize("_") == "Type"
    ensures Sanitize(path + "." + field) == Sanitize(path) + if field == "_" then "Type" else Camel(field)
  {
    hide TitleAll, Split, SanitizeParts;
    SplitNone("_", '.');
    SanitizeOne("_");
    SplitJoin(path, '.', field);
    SplitNone(field, '.');
    SanitizePartsConcat(Split(path, '.'), [field]);
    SanitizeOne(field);
  }
}
