/** The alias generator of every API schema: `snake_case` field names become
    `camelCase` JSON keys. */
module Camel {
  import PyText

  function Upper(c: char): char
  {
    if 'a' <= c <= 'z' then (c as int - 32) as char else c
  }

  function Lower(c: char): char
  {
    if 'A' <= c <= 'Z' then (c as int + 32) as char else c
  }

  function LowerAll(s: string): (r: string)
    ensures |r| == |s|
    ensures forall i :: 0 <= i < |s| ==> r[i] == Lower(s[i])
  {
    if s == [] then [] else [Lower(s[0])] + LowerAll(s[1..])
  }

  /** `str.capitalize` on ASCII letters: first character upper case, the
      rest lower case. */
  function Capitalize(w: string): (r: string)
    ensures |r| == |w|
    ensures w != [] ==> r[0] == Upper(w[0]) && r[1..] == LowerAll(w[1..])
  {
    if w == [] then [] else [Upper(w[0])] + LowerAll(w[1..])
  }

  function Concat(ws: seq<string>): string
  {
    if ws == [] then [] else ws[0] + Concat(ws[1..])
  }

  /** `to_camel`: the first `_`-separated segment as it is, then every later
      segment capitalised. */
  function ToCamel(s: string): string
  {
    var parts := PyText.Split(s, '_');
    parts[0] + Concat(CapitalizedTail(parts))
  }

  function CapitalizedTail(parts: seq<string>): seq<string>
    requires |parts| >= 1
  {
    seq(|parts| - 1, i requires 0 <= i < |parts| - 1 => Capitalize(parts[i + 1]))
  }

  lemma UnderscoreFree(c: char)
    ensures c != '_' ==> Upper(c) != '_' && Lower(c) != '_'
  {
  }

  lemma {:induction false} ConcatFree(ws: seq<string>, x: char)
    requires forall i :: 0 <= i < |ws| ==> x !in ws[i]
    ensures x !in Concat(ws)
  {
    if ws != [] {
      ConcatFree(ws[1..], x);
      assert x !in ws[0];
    }
  }

  lemma CapitalizeFree(w: string)
    requires '_' !in w
    ensures '_' !in Capitalize(w)
  {
    var r := Capitalize(w);
    forall i | 0 <= i < |r| ensures r[i] != '_' {
      if i == 0 {
        UnderscoreFree(w[0]);
      } else {
        assert r[i] == LowerAll(w[1..])[i - 1] == Lower(w[i]);
        UnderscoreFree(w[i]);
      }
    }
  }

  /** The result holds no underscore. */
  lemma NoUnderscore(s: string)
    ensures '_' !in ToCamel(s)
  {
    var parts := PyText.Split(s, '_');
    var tail := CapitalizedTail(parts);
    forall i | 0 <= i < |tail| ensures '_' !in tail[i] {
      CapitalizeFree(parts[i + 1]);
    }
    ConcatFree(tail, '_');
  }

  /** A name without an underscore is its own camel-case form. */
  lemma NoUnderscoreUnchanged(s: string)
    requires '_' !in s
    ensures ToCamel(s) == s
  {
    PyText.SplitWithoutSeparator(s, '_');
    assert CapitalizedTail([s]) == [];
  }

  /** The result begins with the text before the first underscore,
      unchanged. */
  lemma StartsWithFirstSegment(s: string, k: nat)
    requires k <= |s| && '_' !in s[..k] && (k == |s| || s[k] == '_')
    ensures s[..k] <= ToCamel(s)
  {
    var a := s[..k];
    if k == |s| {
      assert a == s;
      NoUnderscoreUnchanged(s);
    } else {
      assert s == a + ['_'] + s[k + 1..];
      PyText.SplitAroundSeparator(a, '_', s[k + 1..]);
    }
  }

  /** Applying `to_camel` twice is applying it once. */
  lemma Idempotent(s: string)
    ensures ToCamel(ToCamel(s)) == ToCamel(s)
  {
    NoUnderscore(s);
    NoUnderscoreUnchanged(ToCamel(s));
  }

  function CountOf(s: string, c: char): nat
  {
    if s == [] then 0 else (if s[0] == c then 1 else 0) + CountOf(s[1..], c)
  }

  function TotalLength(ws: seq<string>): nat
  {
    if ws == [] then 0 else |ws[0]| + TotalLength(ws[1..])
  }

  lemma {:induction false} ConcatLength(ws: seq<string>)
    ensures |Concat(ws)| == TotalLength(ws)
  {
    if ws != [] { ConcatLength(ws[1..]); }
  }

  /** Splitting on `_` loses exactly the underscores: the pieces hold
      `|s| - count('_')` characters and there is one more piece than
      underscores. */
  lemma {:induction false} SplitLength(s: string)
    ensures var parts := PyText.Split(s, '_');
      TotalLength(parts) + CountOf(s, '_') == |s| && |parts| == CountOf(s, '_') + 1
  {
    if s != [] {
      SplitLength(s[1..]);
      var rest := PyText.Split(s[1..], '_');
      if s[0] != '_' {
        var parts := PyText.Split(s, '_');
        assert parts == [[s[0]] + rest[0]] + rest[1..];
        assert rest == [rest[0]] + rest[1..];
        assert parts[1..] == rest[1..];
      }
    }
  }

  lemma {:induction false} TailLength(parts: seq<string>)
    requires |parts| >= 1
    ensures TotalLength(CapitalizedTail(parts)) + |parts[0]| == TotalLength(parts)
  {
    if |parts| > 1 {
      TailLength(parts[1..]);
      assert CapitalizedTail(parts) == [Capitalize(parts[1])] + CapitalizedTail(parts[1..]);
    }
  }

  /** The result is as long as the input without its underscores. */
  lemma LengthDropsUnderscores(s: string)
    ensures |ToCamel(s)| == |s| - CountOf(s, '_')
  {
    var parts := PyText.Split(s, '_');
    ConcatLength(CapitalizedTail(parts));
    TailLength(parts);
    SplitLength(s);
  }
}
