/** The generated idempotency keys of the MES outbox: `make_key` (include/aero/mes/outbox.hpp). */
module OutboxKeys {

  datatype Kind = Production | Alarm | TagSample

  function KindName(kind: Kind): (r: string)
    ensures ':' !in r
  {
    match kind
    case Production => "production"
    case Alarm => "alarm"
    case TagSample => "tag_sample"
  }

  function Digit(d: nat): (c: char)
    requires d < 10
    ensures c != ':' && c as int - '0' as int == d
  {
    ['0', '1', '2', '3', '4', '5', '6', '7', '8', '9'][d]
  }

  /** `std::to_string` */
  function Decimal(n: nat): (r: string)
    ensures ':' !in r && |r| >= 1
  {
    if n < 10 then [Digit(n)] else Decimal(n / 10) + [Digit(n % 10)]
  }

  ghost function ValueOf(s: string): int {
    if s == [] then 0 else ValueOf(s[..|s| - 1]) * 10 + (s[|s| - 1] as int - '0' as int)
  }

  lemma {:induction false} DecimalValue(n: nat)
    ensures ValueOf(Decimal(n)) == n
  {
    if n >= 10 {
      DecimalValue(n / 10);
      assert Decimal(n)[..|Decimal(n)| - 1] == Decimal(n / 10);
    } else {
      assert Decimal(n)[..0] == [];
    }
  }

  function MakeKey(line: string, kind: Kind, number: nat): string {
    line + ":" + KindName(kind) + ":" + Decimal(number)
  }

  /** A key is the line, the kind and the number in decimal without leading zeros, with colons between. */
  lemma {:induction false} KeySpells(line: string, n: nat) returns (digits: string)
    ensures MakeKey(line, Production, n) == line + ":production:" + digits
    ensures MakeKey(line, Alarm, n) == line + ":alarm:" + digits
    ensures MakeKey(line, TagSample, n) == line + ":tag_sample:" + digits
    ensures digits != "" && (forall i :: 0 <= i < |digits| ==> '0' <= digits[i] <= '9') && ValueOf(digits) == n
    ensures |digits| > 1 ==> digits[0] != '0'
  {
    hide Decimal;
    digits := Decimal(n);
    DecimalValue(n);
    DecimalDigits(n);
    KeyText(line, "production", digits);
    KeyText(line, "alarm", digits);
    KeyText(line, "tag_sample", digits);
    assert ":production:" == ":" + "production" + ":";
    assert ":alarm:" == ":" + "alarm" + ":";
    assert ":tag_sample:" == ":" + "tag_sample" + ":";
  }

  lemma {:induction false} KeyText(line: string, w: string, d: string)
    ensures line + ":" + w + ":" + d == line + (":" + w + ":") + d
  {
  }

  lemma {:induction false} DecimalDigits(n: nat)
    ensures var r := Decimal(n); (forall i :: 0 <= i < |r| ==> '0' <= r[i] <= '9') && (n > 0 ==> r[0] != '0')
    ensures n < 10 ==> |Decimal(n)| == 1
  {
    if n >= 10 { DecimalDigits(n / 10); }
  }

  lemma {:induction false} NoneLater(p: string, d: string)
    requires ':' !in d
    ensures forall i :: |p| < i < |p + ":" + d| ==> (p + ":" + d)[i] != ':'
  {
    forall i | |p| < i < |p + ":" + d| ensures (p + ":" + d)[i] != ':' {
      assert (p + ":" + d)[i] == d[i - |p| - 1];
    }
  }

  /** The part after the last ':' is determined by the whole. */
  lemma {:induction false} SplitLast(p: string, d: string, q: string, e: string)
    requires p + ":" + d == q + ":" + e && ':' !in d && ':' !in e
    ensures p == q && d == e
  {
    var k, l := p + ":" + d, q + ":" + e;
    assert k[|p|] == ':' && l[|q|] == ':';
    NoneLater(p, d);
    NoneLater(q, e);
    assert k[..|p|] == p && l[..|q|] == q && k[|p| + 1..] == d && l[|q| + 1..] == e;
  }

  /** A generated key determines the report's line, kind and sequence number. */
  lemma {:induction false} KeysInjective(line: string, kind: Kind, n: nat, line': string, kind': Kind, n': nat)
    requires MakeKey(line, kind, n) == MakeKey(line', kind', n')
    ensures line == line' && kind == kind' && n == n'
  {
    hide Decimal;
    SplitLast(line + ":" + KindName(kind), Decimal(n), line' + ":" + KindName(kind'), Decimal(n'));
    SplitLast(line, KindName(kind), line', KindName(kind'));
    DecimalValue(n);
    DecimalValue(n');
    NamesDiffer(kind, kind');
  }

  lemma {:induction false} NamesDiffer(kind: Kind, kind': Kind)
    ensures KindName(kind) == KindName(kind') ==> kind == kind'
  {
    assert KindName(Production)[0] == 'p' && KindName(Alarm)[0] == 'a' && KindName(TagSample)[0] == 't';
  }
}
