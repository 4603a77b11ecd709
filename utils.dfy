/** The status badge and the machine serial number. The clock and the random
    draw that `generateSerialNumber` reads are parameters. */
module Utils {
  import opened Text

  const SUCCESS_CLASS := "px-2 py-1 rounded-full bg-success/20 text-success text-xs font-medium"
  const DESTRUCTIVE_CLASS := "px-2 py-1 rounded-full bg-destructive/20 text-destructive text-xs font-medium"
  const MUTED_CLASS := "px-2 py-1 rounded-full bg-muted text-muted-foreground text-xs font-medium"

  datatype StatusConfig = StatusConfig(className: string, labelText: string)

  /** `getStatusConfig`: a switch on the lower-cased status. */
  function GetStatusConfig(status: string): (c: StatusConfig)
    ensures c.className in {SUCCESS_CLASS, DESTRUCTIVE_CLASS, MUTED_CLASS}
    ensures c.labelText in {"Activa", "Inactiva", status}
  {
    var key := Lower(status);
    if key == "active" || key == "activa" then StatusConfig(SUCCESS_CLASS, "Activa")
    else if key == "inactive" || key == "inactiva" then StatusConfig(DESTRUCTIVE_CLASS, "Inactiva")
    else StatusConfig(MUTED_CLASS, status)
  }

  /** The badge depends only on the status up to letter case, except that an
      unknown status is shown as written. */
  lemma StatusConfigIgnoresCase(s: string, t: string)
    requires Lower(s) == Lower(t)
    ensures GetStatusConfig(s).className == GetStatusConfig(t).className
    ensures GetStatusConfig(s).className != MUTED_CLASS ==> GetStatusConfig(s) == GetStatusConfig(t)
  {
  }

  /** Each class goes with one label: "Activa" with success, "Inactiva" with
      destructive, and the original text with muted. */
  lemma StatusConfigClasses(status: string)
    ensures GetStatusConfig(status).className == SUCCESS_CLASS <==> Lower(status) in {"active", "activa"}
    ensures GetStatusConfig(status).className == DESTRUCTIVE_CLASS <==> Lower(status) in {"inactive", "inactiva"}
    ensures GetStatusConfig(status).className == MUTED_CLASS ==> GetStatusConfig(status).labelText == status
    ensures Lower(status) in {"active", "activa"} ==> GetStatusConfig(status) == StatusConfig(SUCCESS_CLASS, "Activa")
    ensures Lower(status) in {"inactive", "inactiva"} ==> GetStatusConfig(status) == StatusConfig(DESTRUCTIVE_CLASS, "Inactiva")
    ensures Lower(status) !in {"active", "activa", "inactive", "inactiva"} ==> GetStatusConfig(status) == StatusConfig(MUTED_CLASS, status)
  {
  }

  /** Applying the badge to its own label gives the same label. */
  lemma StatusConfigIdempotent(status: string)
    ensures GetStatusConfig(GetStatusConfig(status).labelText).labelText == GetStatusConfig(status).labelText
  {
    var c := GetStatusConfig(status);
    if c.labelText == "Activa" {
      assert Lower("Activa") == "activa";
    } else if c.labelText == "Inactiva" {
      assert Lower("Inactiva") == "inactiva";
    }
  }

  /** `type.toUpperCase().substring(0, 2)` */
  function SerialPrefix(machineType: string): (p: string)
    ensures |p| == if |machineType| < 2 then |machineType| else 2
    ensures p <= Upper(machineType)
  {
    var u := Upper(machineType);
    if |u| < 2 then u else u[..2]
  }

  /** `Math.floor(r * 1000).toString().padStart(3, '0')`, with the floor as `draw`. */
  function RandomPart(draw: nat): (r: string)
    requires draw < 1000
    ensures |r| == 3
  {
    NatToStringBelowThousand(draw);
    PadStart(NatToString(draw), 3, '0')
  }

  /** `generateSerialNumber(type)` at clock `nowMs` with random draw `draw`. */
  function GenerateSerialNumber(machineType: string, nowMs: nat, draw: nat): (serial: string)
    requires draw < 1000
    ensures 6 <= |serial| <= 13
  {
    SerialPrefix(machineType) + "-" + LastChars(NatToString(nowMs), 6) + "-" + RandomPart(draw)
  }

  /** Leading zeros do not change the value of a numeral. */
  lemma {:induction false} LeadingZeros(k: nat, s: string)
    requires AllDigits(s)
    ensures AllDigits(seq(k, _ => '0') + s)
    ensures DigitsValue(seq(k, _ => '0') + s) == DigitsValue(s)
    decreases |s|, k
  {
    var z := seq(k, _ => '0');
    if s == [] {
      assert z + s == z;
      if k > 0 {
        LeadingZeros(k - 1, s);
        assert z[..k - 1] == seq(k - 1, _ => '0') + s;
        assert DigitsValue(z) == DigitsValue(z[..k - 1]) * 10 + DigitValue(z[k - 1]);
      }
    } else {
      var init := s[..|s| - 1];
      LeadingZeros(k, init);
      assert (z + s)[..|z + s| - 1] == z + init;
    }
  }

  /** The random part is always three decimal digits, and it reads back as the draw. */
  lemma RandomPartDigits(draw: nat)
    requires draw < 1000
    ensures |RandomPart(draw)| == 3 && AllDigits(RandomPart(draw))
    ensures DigitsValue(RandomPart(draw)) == draw
  {
    var n := NatToString(draw);
    NatToStringBelowThousand(draw);
    NatToStringRoundTrip(draw);
    LeadingZeros(3 - |n|, n);
    assert RandomPart(draw) == seq(3 - |n|, _ => '0') + n;
  }

  /** `Date.now().toString().slice(-6)` is one to six digits that denote the clock
      modulo one million. */
  lemma LastDigits(n: nat)
    ensures 1 <= |LastChars(NatToString(n), 6)| <= 6
    ensures AllDigits(LastChars(NatToString(n), 6))
    ensures DigitsValue(LastChars(NatToString(n), 6)) == n % 1000000
  {
    var s := NatToString(n);
    NatToStringRoundTrip(n);
    assert Pow10(6) == 1000000;
    if |s| <= 6 {
      DigitsValueBound(s);
      assert Pow10(|s|) <= Pow10(6) by { Pow10Monotone(|s|, 6); }
    } else {
      SuffixValue(s, 6);
    }
  }

  /** The serial is `prefix-timestamp-random`: a prefix of at most two letters, at
      most six trailing digits of the clock, which denote it modulo one million, and
      three digits that read back as the draw. */
  lemma SerialNumberShape(machineType: string, nowMs: nat, draw: nat)
    requires draw < 1000
    ensures var serial := GenerateSerialNumber(machineType, nowMs, draw);
            var p := |SerialPrefix(machineType)|;
            var t := |LastChars(NatToString(nowMs), 6)|;
            && p <= 2 && 1 <= t <= 6
            && |serial| == p + t + 5
            && serial[..p] == SerialPrefix(machineType)
            && serial[p] == '-' && serial[p + 1 + t] == '-'
            && serial[p + 1..p + 1 + t] == LastChars(NatToString(nowMs), 6)
            && AllDigits(serial[p + 1..p + 1 + t]) && DigitsValue(serial[p + 1..p + 1 + t]) == nowMs % 1000000
            && AllDigits(serial[p + 2 + t..]) && DigitsValue(serial[p + 2 + t..]) == draw
  {
    RandomPartDigits(draw);
    LastDigits(nowMs);
    var prefix := SerialPrefix(machineType);
    var ts := LastChars(NatToString(nowMs), 6);
    var rp := RandomPart(draw);
    var serial := prefix + "-" + ts + "-" + rp;
    var p := |prefix|;
    assert serial == GenerateSerialNumber(machineType, nowMs, draw);
    assert serial[..p] == prefix;
    assert serial[p + 1..p + 1 + |ts|] == ts;
    assert serial[p + 2 + |ts|..] == rp;
  }
}
