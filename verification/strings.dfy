/**
 String building used by the prompt: `Array.prototype.join` and the decimal
 rendering of an integer inside a template literal.
 */
module Strings {

  /** Total number of characters in `items`. */
  function TotalLength(items: seq<string>): nat
  {
    if |items| == 0 then 0 else |items[0]| + TotalLength(items[1..])
  }

  /** `items` with `sep` between neighbours, as `items.join(sep)` builds it. */
  function Join(items: seq<string>, sep: string): (r: string)
    ensures |items| == 0 ==> r == ""
    ensures |items| > 0 ==> |r| == TotalLength(items) + (|items| - 1) * |sep|
  {
    if |items| == 0 then ""
    else if |items| == 1 then items[0]
    else items[0] + sep + Join(items[1..], sep)
  }

  /** Index at which the `i`-th item starts inside `Join(items, sep)`. */
  function ItemOffset(items: seq<string>, sep: string, i: nat): nat
    requires i <= |items|
  {
    if i == 0 then 0 else |items[0]| + |sep| + ItemOffset(items[1..], sep, i - 1)
  }

  /** A slice of the right operand of a concatenation, read through the concatenation. */
  lemma SliceOfAppend(a: string, b: string, lo: nat, hi: nat)
    requires lo <= hi <= |b|
    ensures (a + b)[|a| + lo..|a| + hi] == b[lo..hi]
  {
  }

  /** Offsets of neighbouring items differ by the first one's length plus the separator. */
  lemma {:induction false} ItemOffsetStep(items: seq<string>, sep: string, i: nat)
    requires i + 1 < |items|
    ensures ItemOffset(items, sep, i + 1) == ItemOffset(items, sep, i) + |items[i]| + |sep|
  {
    if i > 0 {
      ItemOffsetStep(items[1..], sep, i - 1);
    }
  }

  /** Every item sits, verbatim, at its offset. */
  lemma {:induction false} JoinPlacesItems(items: seq<string>, sep: string, i: nat)
    requires i < |items|
    ensures ItemOffset(items, sep, i) + |items[i]| <= |Join(items, sep)|
    ensures Join(items, sep)[ItemOffset(items, sep, i)..ItemOffset(items, sep, i) + |items[i]|] == items[i]
  {
    if i == 0 {
      if |items| > 1 {
        assert Join(items, sep) == items[0] + (sep + Join(items[1..], sep));
      }
    } else {
      var head := items[0] + sep;
      var rest := items[1..];
      assert Join(items, sep) == head + Join(rest, sep);
      JoinPlacesItems(rest, sep, i - 1);
      var o := ItemOffset(rest, sep, i - 1);
      SliceOfAppend(head, Join(rest, sep), o, o + |rest[i - 1]|);
    }
  }

  /** Neighbouring items are separated by exactly `sep`. */
  lemma {:induction false} JoinSeparatesItems(items: seq<string>, sep: string, i: nat)
    requires i + 1 < |items|
    ensures ItemOffset(items, sep, i) + |items[i]| <= ItemOffset(items, sep, i + 1) <= |Join(items, sep)|
    ensures Join(items, sep)[ItemOffset(items, sep, i) + |items[i]|..ItemOffset(items, sep, i + 1)] == sep
  {
    ItemOffsetStep(items, sep, i);
    var head := items[0] + sep;
    var rest := items[1..];
    assert Join(items, sep) == head + Join(rest, sep);
    if i == 0 {
      assert Join(items, sep) == items[0] + sep + Join(rest, sep);
    } else {
      JoinSeparatesItems(rest, sep, i - 1);
      ItemOffsetStep(rest, sep, i - 1);
      var o := ItemOffset(rest, sep, i - 1) + |rest[i - 1]|;
      SliceOfAppend(head, Join(rest, sep), o, ItemOffset(rest, sep, i));
    }
  }

  /** Where a joined list occurs, each item occurs at its offset. */
  lemma JoinItemOccurs(hay: string, items: seq<string>, sep: string, at: int, i: nat)
    requires OccursAt(hay, Join(items, sep), at)
    requires i < |items|
    ensures OccursAt(hay, items[i], at + ItemOffset(items, sep, i))
  {
    JoinPlacesItems(items, sep, i);
    OccursWithin(hay, Join(items, sep), at, items[i], ItemOffset(items, sep, i));
  }

  /** Appending one item to a non-empty list appends `sep` and the item. */
  lemma {:induction false} JoinSnoc(items: seq<string>, x: string, sep: string)
    requires |items| > 0
    ensures Join(items + [x], sep) == Join(items, sep) + sep + x
  {
    if |items| == 1 {
      assert items + [x] == [items[0], x];
    } else {
      assert (items + [x])[1..] == items[1..] + [x];
      JoinSnoc(items[1..], x, sep);
    }
  }

  /** The strings of `parts`, each appended after the ones before it. */
  function Concat(parts: seq<string>): string
    decreases |parts|
  {
    if |parts| == 0 then "" else Concat(parts[..|parts| - 1]) + parts[|parts| - 1]
  }

  lemma ConcatPrefixStep(parts: seq<string>, k: nat)
    requires k < |parts|
    ensures Concat(parts[..k + 1]) == Concat(parts[..k]) + parts[k]
  {
    assert parts[..k + 1][..k] == parts[..k];
  }

  lemma ConcatSnoc(parts: seq<string>, x: string)
    ensures Concat(parts + [x]) == Concat(parts) + x
  {
    assert (parts + [x])[..|parts|] == parts;
  }

  lemma {:induction false} ConcatAppend(a: seq<string>, b: seq<string>)
    ensures Concat(a + b) == Concat(a) + Concat(b)
    decreases |b|
  {
    if |b| == 0 {
      assert a + b == a;
    } else {
      var b' := b[..|b| - 1];
      var x := b[|b| - 1];
      assert b == b' + [x];
      assert a + b == (a + b') + [x];
      ConcatSnoc(a + b', x);
      ConcatAppend(a, b');
      ConcatSnoc(b', x);
    }
  }

  /** Cutting the parts at `k`: what comes before part `k`, part `k` itself,
      and what comes after it. */
  lemma ConcatAround(parts: seq<string>, k: nat)
    requires k < |parts|
    ensures Concat(parts) == Concat(parts[..k]) + parts[k] + Concat(parts[k + 1..])
  {
    var before := parts[..k + 1];
    assert parts == before + parts[k + 1..];
    ConcatAppend(before, parts[k + 1..]);
    ConcatPrefixStep(parts, k);
  }

  /** Blanking part `k` removes exactly that part's text. */
  lemma ConcatBlankPart(parts: seq<string>, k: nat)
    requires k < |parts|
    ensures Concat(parts[k := ""]) == Concat(parts[..k]) + Concat(parts[k + 1..])
  {
    var blanked := parts[k := ""];
    ConcatAround(blanked, k);
    assert blanked[..k] == parts[..k];
    assert blanked[k + 1..] == parts[k + 1..];
  }

  /** Parts that come earlier end no later than later parts begin. */
  lemma ConcatPrefixGrows(parts: seq<string>, i: nat, j: nat)
    requires i < j <= |parts|
    ensures |Concat(parts[..i])| + |parts[i]| <= |Concat(parts[..j])|
  {
    var a := parts[..i + 1];
    assert parts[..j] == a + parts[i + 1..j];
    ConcatAppend(a, parts[i + 1..j]);
    assert a[..i] == parts[..i];
  }

  /** `needle` occupies `hay[i..i + |needle|]`. */
  ghost predicate OccursAt(hay: string, needle: string, i: int)
  {
    0 <= i && i + |needle| <= |hay| && hay[i..i + |needle|] == needle
  }

  /** Reference meaning of "`hay` contains `needle`". */
  ghost predicate IsSubstring(needle: string, hay: string)
  {
    exists i :: OccursAt(hay, needle, i)
  }

  /** The empty string is contained in every string. */
  lemma EmptyIsSubstring(hay: string)
    ensures IsSubstring("", hay)
  {
    assert OccursAt(hay, "", 0);
  }

  /** Containment is transitive. */
  lemma SubstringTransitive(a: string, b: string, c: string)
    requires IsSubstring(a, b) && IsSubstring(b, c)
    ensures IsSubstring(a, c)
  {
    var i :| OccursAt(b, a, i);
    var j :| OccursAt(c, b, j);
    assert forall k :: 0 <= k < |a| ==> c[j + i + k] == b[i + k] == a[k];
    assert c[j + i..j + i + |a|] == a;
    assert OccursAt(c, a, j + i);
  }

  /** An occurrence in the tail is an occurrence one place later in the whole. */
  lemma OccursInTail(hay: string, needle: string, i: int)
    requires |hay| > 0 && 0 <= i
    ensures OccursAt(hay[1..], needle, i) <==> OccursAt(hay, needle, i + 1)
  {
    if 0 <= i && i + |needle| <= |hay| - 1 {
      assert hay[1..][i..i + |needle|] == hay[i + 1..i + 1 + |needle|];
    }
  }

  /** An occurrence inside an occurrence is an occurrence. */
  lemma OccursWithin(hay: string, part: string, at: int, inner: string, off: int)
    requires OccursAt(hay, part, at) && OccursAt(part, inner, off)
    ensures OccursAt(hay, inner, at + off)
  {
    assert forall k :: 0 <= k < |inner| ==> hay[at + off + k] == part[off + k] == inner[k];
    assert hay[at + off..at + off + |inner|] == inner;
  }

  predicate IsDigit(c: char)
  {
    '0' <= c <= '9'
  }

  function DigitChar(d: nat): (c: char)
    requires d < 10
    ensures IsDigit(c)
  {
    ('0' as int + d) as char
  }

  function DigitValue(c: char): nat
    requires IsDigit(c)
  {
    c as int - '0' as int
  }

  predicate AllDigits(s: string)
  {
    forall i :: 0 <= i < |s| ==> IsDigit(s[i])
  }

  /** Shape of what a template literal prints for an integer: an optional
      minus sign and then digits with no leading zero. */
  predicate IsIntLiteral(s: string)
  {
    var digits := if |s| > 0 && s[0] == '-' then s[1..] else s;
    && |digits| > 0
    && AllDigits(digits)
    && (|digits| > 1 ==> digits[0] != '0')
  }

  /** Decimal digits of `n`, most significant first. */
  function NatToDecimal(n: nat): (r: string)
    ensures |r| > 0 && AllDigits(r)
    ensures |r| > 1 ==> r[0] != '0'
    decreases n
  {
    if n < 10 then [DigitChar(n)] else NatToDecimal(n / 10) + [DigitChar(n % 10)]
  }

  /** What `${n}` prints for an integer `n`. */
  function IntToDecimal(n: int): (r: string)
    ensures IsIntLiteral(r)
    ensures r[0] == '-' <==> n < 0
  {
    if n < 0 then "-" + NatToDecimal(-n) else NatToDecimal(n)
  }

  /** Value of a string of decimal digits (reference reading, used only to
      show that the rendering loses nothing). */
  function DigitsValue(s: string): nat
    requires AllDigits(s)
    decreases |s|
  {
    if |s| == 0 then 0 else DigitsValue(s[..|s| - 1]) * 10 + DigitValue(s[|s| - 1])
  }

  function ParseIntLiteral(s: string): int
    requires IsIntLiteral(s)
  {
    if s[0] == '-' then -(DigitsValue(s[1..]) as int) else DigitsValue(s)
  }

  lemma {:induction false} NatToDecimalRoundTrip(n: nat)
    ensures DigitsValue(NatToDecimal(n)) == n
    decreases n
  {
    if n >= 10 {
      var s := NatToDecimal(n / 10);
      var r := NatToDecimal(n);
      assert r == s + [DigitChar(n % 10)];
      assert r[..|r| - 1] == s;
      NatToDecimalRoundTrip(n / 10);
    }
  }

  /** Reading the rendered integer back gives the integer: the rendering is
      injective, so two different complexity values never print alike. */
  lemma IntToDecimalRoundTrip(n: int)
    ensures ParseIntLiteral(IntToDecimal(n)) == n
  {
    if n < 0 {
      NatToDecimalRoundTrip(-n);
      assert IntToDecimal(n)[1..] == NatToDecimal(-n);
    } else {
      NatToDecimalRoundTrip(n);
    }
  }
}
