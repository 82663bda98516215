/** The name and the external id under which one scan run's Check Run is published. */
module CheckIdentity {

  const GITHUB_CHECK_NAME: string := "security/orchestrator"
  const EXTERNAL_ID_PREFIX: string := "github-checks:"

  function HexDigit(d: nat): char
    requires d < 16
  {
    if d < 10 then ('0' as int + d) as char else ('a' as int + d - 10) as char
  }

  /** Hexadecimal text, padded with zeros to the width. */
  function HexText(n: nat, width: nat): (text: string)
    ensures |text| >= width && |text| >= 1
  {
    if n < 16 && width <= 1 then [HexDigit(n)]
    else HexText(n / 16, if width == 0 then 0 else width - 1) + [HexDigit(n % 16)]
  }

  /** A dash before the last `k` characters. */
  function Dashed(text: string, k: nat): string
    requires k <= |text|
  {
    text[..|text| - k] + "-" + text[|text| - k..]
  }

  /** Five groups of 8, 4, 4, 4 and 12 digits; a number too large for a UUID would widen the first. */
  function UuidText(id: nat): string { Dashed(Dashed(Dashed(Dashed(HexText(id, 32), 12), 17), 22), 27) }

  function ExternalId(scanRunId: nat): string { EXTERNAL_ID_PREFIX + UuidText(scanRunId) }

  lemma {:induction false} HexTextInjective(a: nat, b: nat, width: nat)
    requires HexText(a, width) == HexText(b, width)
    ensures a == b
  {
    var textA, textB := HexText(a, width), HexText(b, width);
    var n := |textA| - 1;
    assert textA[n] == HexDigit(a % 16) && textB[n] == HexDigit(b % 16);
    if n > 0 {
      var narrower := if width == 0 then 0 else width - 1;
      assert textA[..n] == HexText(a / 16, narrower) && textB[..n] == HexText(b / 16, narrower);
      HexTextInjective(a / 16, b / 16, narrower);
    }
  }

  lemma DashedInjective(a: string, b: string, k: nat)
    requires k <= |a| && k <= |b| && Dashed(a, k) == Dashed(b, k)
    ensures a == b
  {
    var text := Dashed(a, k);
    var n := |text|;
    assert a == text[..n - k - 1] + text[n - k..] && b == Dashed(b, k)[..n - k - 1] + Dashed(b, k)[n - k..];
  }

  lemma UuidTextInjective(a: nat, b: nat)
    requires UuidText(a) == UuidText(b)
    ensures a == b
  {
    var hexA, hexB := HexText(a, 32), HexText(b, 32);
    hide HexText;
    DashedInjective(Dashed(Dashed(Dashed(hexA, 12), 17), 22), Dashed(Dashed(Dashed(hexB, 12), 17), 22), 27);
    DashedInjective(Dashed(Dashed(hexA, 12), 17), Dashed(Dashed(hexB, 12), 17), 22);
    DashedInjective(Dashed(hexA, 12), Dashed(hexB, 12), 17);
    DashedInjective(hexA, hexB, 12);
    HexTextInjective(a, b, 32);
  }

  function Pow16(n: nat): nat { if n == 0 then 1 else 16 * Pow16(n - 1) }

  lemma {:induction false} HexTextWidth(n: nat, width: nat)
    requires width >= 1 && n < Pow16(width)
    ensures |HexText(n, width)| == width
  {
    if width > 1 { HexTextWidth(n / 16, width - 1); }
  }

  /** An identifier of 128 bits has the canonical text of 36 characters. */
  lemma UuidTextShape(id: nat)
    requires id < Pow16(32)
    ensures |UuidText(id)| == 36
    ensures UuidText(id)[8] == UuidText(id)[13] == UuidText(id)[18] == UuidText(id)[23] == '-'
  {
    HexTextWidth(id, 32);
    hide HexText, Pow16;
    DashShape(HexText(id, 32));
  }

  lemma DashShape(hex: string)
    requires |hex| == 32
    ensures var text := Dashed(Dashed(Dashed(Dashed(hex, 12), 17), 22), 27);
            |text| == 36 && text[8] == text[13] == text[18] == text[23] == '-'
  {
    var a := Dashed(hex, 12);
    assert a[20] == '-';
    var b := Dashed(a, 17);
    assert b[16] == '-' && b[21] == '-';
    var c := Dashed(b, 22);
    assert c[12] == '-' && c[17] == '-' && c[22] == '-';
  }

  /** Two scan runs never share an external id, so a lookup cannot find another scan's run. */
  lemma ExternalIdInjective(a: nat, b: nat)
    ensures ExternalId(a) == ExternalId(b) <==> a == b
  {
    if ExternalId(a) == ExternalId(b) {
      var n := |EXTERNAL_ID_PREFIX|;
      assert ExternalId(a)[n..] == UuidText(a);
      assert ExternalId(b)[n..] == UuidText(b);
      UuidTextInjective(a, b);
    }
  }
}
