/**
  Names in the device PKI: certificate serials as text, the common-name contract of the
  MQTT broker, and the Vault mount names generated by CA rotation.
 */
module DeviceNames {
  import opened Codec
  import opened Text

  // ---------- Serials ----------

  function HexPair(b: Byte): (s: string)
    ensures |s| == 2
  {
    [HexDigit(b / 16), HexDigit(b % 16)]
  }

  lemma {:induction false} HexPairInjective(a: Byte, b: Byte)
    requires HexPair(a) == HexPair(b)
    ensures a == b
  {
    HexValueDigit(a / 16);
    HexValueDigit(b / 16);
    HexValueDigit(a % 16);
    HexValueDigit(b % 16);
    assert HexPair(a)[0] == HexPair(b)[0] && HexPair(a)[1] == HexPair(b)[1];
  }

  function Pairs(bs: seq<Byte>): seq<string> {
    seq(|bs|, i requires 0 <= i < |bs| => HexPair(bs[i]))
  }

  function Magnitude(n: int): nat {
    if n < 0 then -n else n
  }

  /** The colon-separated text of a serial number. */
  function SerialText(sn: int): string {
    var b := MinimalBytes(Magnitude(sn));
    if b == [] then "00" else Join(Pairs(b), ":")
  }

  /** FormatSerial, filling its array of parts. */
  method FormatSerial(sn: int) returns (s: string)
    ensures s == SerialText(sn)
  {
    var b := MinimalBytes(Magnitude(sn));
    if |b| == 0 {
      return "00";
    }
    var parts := new string[|b|];
    for i := 0 to |b|
      invariant forall j :: 0 <= j < i ==> parts[j] == HexPair(b[j])
    {
      parts[i] := HexPair(b[i]);
    }
    assert parts[..] == Pairs(b);
    s := Join(parts[..], ":");
  }

  lemma {:induction false} JoinPairsInjective(a: seq<Byte>, b: seq<Byte>)
    requires a != [] && b != [] && Join(Pairs(a), ":") == Join(Pairs(b), ":")
    ensures a == b
    decreases |a|
  {
    var s, t := Join(Pairs(a), ":"), Join(Pairs(b), ":");
    assert s[..2] == HexPair(a[0]) && t[..2] == HexPair(b[0]);
    HexPairInjective(a[0], b[0]);
    if |a| > 1 && |b| > 1 {
      assert Pairs(a)[1..] == Pairs(a[1..]) && Pairs(b)[1..] == Pairs(b[1..]);
      assert s[3..] == Join(Pairs(a[1..]), ":") && t[3..] == Join(Pairs(b[1..]), ":");
      JoinPairsInjective(a[1..], b[1..]);
      assert a == [a[0]] + a[1..] && b == [b[0]] + b[1..];
    }
  }

  /** Two serials have one text exactly when they have one magnitude. */
  lemma {:induction false} SerialTextInjective(a: int, b: int)
    ensures SerialText(a) == SerialText(b) <==> Magnitude(a) == Magnitude(b)
  {
    if SerialText(a) == SerialText(b) {
      SerialTextBytes(a);
      SerialTextBytes(b);
      JoinPairsInjective(SerialBytes(a), SerialBytes(b));
    }
  }

  function SerialBytes(sn: int): (bs: seq<Byte>)
    ensures bs != [] && FromBytes(bs) == Magnitude(sn)
  {
    var b := MinimalBytes(Magnitude(sn));
    if b == [] then
      assert FromBytes([0][..0]) == 0;
      [0]
    else b
  }

  lemma {:induction false} SerialTextBytes(sn: int)
    ensures SerialText(sn) == Join(Pairs(SerialBytes(sn)), ":")
  {
    assert Pairs([0]) == ["00"];
  }

  /** The text spells the serial's bytes in order, two lower-case digits each, with colons between. */
  lemma {:induction false} SerialTextSpells(sn: int, k: nat)
    requires k < |SerialBytes(sn)|
    ensures var s, bs := SerialText(sn), SerialBytes(sn);
            && |s| == 3 * |bs| - 1
            && s[3 * k..3 * k + 2] == EncodeHex([bs[k]])
            && (k < |bs| - 1 ==> s[3 * k + 2] == ':')
  {
    SerialTextBytes(sn);
    PairsSpell(SerialBytes(sn), k);
  }

  lemma {:induction false} PairsSpell(bs: seq<Byte>, k: nat)
    requires k < |bs|
    ensures var s := Join(Pairs(bs), ":");
            && |s| == 3 * |bs| - 1
            && s[3 * k..3 * k + 2] == EncodeHex([bs[k]])
            && (k < |bs| - 1 ==> s[3 * k + 2] == ':')
    decreases |bs|
  {
    var s := Join(Pairs(bs), ":");
    OnePair(bs[k]);
    if |bs| == 1 {
      assert Pairs(bs) == [HexPair(bs[0])];
      assert s[0..2] == s;
    } else {
      var rest := Join(Pairs(bs[1..]), ":");
      assert Pairs(bs)[1..] == Pairs(bs[1..]);
      assert s == HexPair(bs[0]) + ":" + rest;
      PairsSpell(bs[1..], if k == 0 then 0 else k - 1);
      if k == 0 {
        assert s[0..2] == HexPair(bs[0]);
      } else {
        assert s[3 * k..3 * k + 2] == rest[3 * (k - 1)..3 * (k - 1) + 2];
      }
    }
  }

  lemma {:induction false} OnePair(b: Byte)
    ensures EncodeHex([b]) == HexPair(b)
  {
    assert [b][1..] == [];
  }

  // ---------- Common names ----------

  function ExpectedCN(device: string, org: string): string {
    device + "@" + org
  }

  /** strings.Cut at the first '@'. */
  function ParseCN(cn: string): (r: (string, string, bool)) {
    if cn == "" then ("", "", false)
    else if cn[0] == '@' then ("", cn[1..], true)
    else
      var (d, t, ok) := ParseCN(cn[1..]);
      ([cn[0]] + d, t, ok)
  }

  /** A common name parses back into its parts exactly when the device ID has no '@'. */
  lemma {:induction false} ParseExpectedCN(device: string, org: string)
    ensures ParseCN(ExpectedCN(device, org)) == (device, org, true) <==> '@' !in device
    ensures ParseCN(ExpectedCN(device, org)).2
    decreases |device|
  {
    var cn := ExpectedCN(device, org);
    if device == "" {
      assert cn[1..] == org;
    } else if device[0] != '@' {
      ParseExpectedCN(device[1..], org);
      assert cn[1..] == ExpectedCN(device[1..], org);
      var d := ParseCN(cn[1..]).0;
      assert device == [device[0]] + device[1..];
      assert ([device[0]] + d)[1..] == d;
    }
  }

  // ---------- Mount names ----------

  const MARK: string := "-rot-"

  function BaseMount(mount: string): string {
    var i := Index(mount, MARK);
    if i > 0 then mount[..i] else mount
  }

  function NextMount(mount: string, id: string): string {
    BaseMount(mount) + MARK + id
  }

  /** The mount name after one rotation for each element of ids. */
  function MountAfter(mount: string, ids: seq<string>): string {
    if |ids| == 0 then mount else NextMount(MountAfter(mount, ids[..|ids| - 1]), ids[|ids| - 1])
  }

  /** The eight characters of a UUID that each rotation takes. */
  predicate RotationIds(ids: seq<string>) {
    forall i :: 0 <= i < |ids| ==> |ids[i]| == 8
  }

  /** The suffix StartRotation appends to this name would be found at its very start. */
  predicate StartsMarked(mount: string) {
    MARK <= mount + MARK
  }

  lemma {:induction false} FirstFive(a: string, b: string)
    ensures MARK <= a + MARK + b <==> StartsMarked(a)
  {
    assert (a + MARK + b)[..5] == (a + MARK)[..5];
  }

  /** A generated name strips to a prefix of the base it was generated from. */
  lemma {:induction false} BaseShrinks(base: string, id: string)
    requires !StartsMarked(base)
    ensures BaseMount(base + MARK + id) <= base && !StartsMarked(BaseMount(base + MARK + id))
  {
    var m := base + MARK + id;
    var i := Index(m, MARK);
    assert m[|base|..] == MARK + id;
    FirstFive(base, id);
    assert m[0..] == m;
    assert 0 < i <= |base|;
    assert m[..i] == base[..i];
    SplitAtMark(m, i);
    FirstFive(m[..i], m[i + 5..]);
  }

  lemma {:induction false} SplitAtMark(m: string, i: nat)
    requires i <= |m| && MARK <= m[i..]
    ensures i + 5 <= |m| && m == m[..i] + MARK + m[i + 5..]
  {
    assert m[i..][..5] == MARK && m[i..][5..] == m[i + 5..];
    assert m == m[..i] + m[i..];
  }

  lemma {:induction false} BaseUnmarked(mount: string)
    requires !StartsMarked(mount)
    ensures BaseMount(mount) <= mount && !StartsMarked(BaseMount(mount))
  {
    var i := Index(mount, MARK);
    if i > 0 {
      SplitAtMark(mount, i);
      FirstFive(mount[..i], mount[i + 5..]);
      assert (mount + MARK)[..5] == mount[..5];
    }
  }

  lemma {:induction false} MountBaseBounded(mount: string, ids: seq<string>)
    requires !StartsMarked(mount)
    ensures BaseMount(MountAfter(mount, ids)) <= mount
    ensures !StartsMarked(BaseMount(MountAfter(mount, ids)))
    decreases |ids|
  {
    if |ids| == 0 {
      BaseUnmarked(mount);
    } else {
      MountBaseBounded(mount, ids[..|ids| - 1]);
      BaseShrinks(BaseMount(MountAfter(mount, ids[..|ids| - 1])), ids[|ids| - 1]);
    }
  }

  lemma {:induction false} MountGrows(mount: string, ids: seq<string>)
    requires StartsMarked(mount)
    requires RotationIds(ids)
    ensures |MountAfter(mount, ids)| == |mount| + 13 * |ids|
    ensures StartsMarked(MountAfter(mount, ids))
    decreases |ids|
  {
    if |ids| > 0 {
      var m := MountAfter(mount, ids[..|ids| - 1]);
      MountGrows(mount, ids[..|ids| - 1]);
      MarkedIsItsBase(m);
      var id := ids[|ids| - 1];
      FirstFive(m, id);
      assert (m + MARK + id + MARK)[..5] == (m + MARK + id)[..5];
    }
  }

  lemma {:induction false} MarkedIsItsBase(m: string)
    requires StartsMarked(m)
    ensures BaseMount(m) == m
  {
    assert |m| >= 5 ==> (m + MARK)[..5] == m[..5];
    assert m[0..] == m;
  }

  /**
    Rotation keeps names within 13 characters of the original, for every number of
    rotations, exactly when the original does not start out marked.
   */
  lemma {:induction false} MountNamesBounded(mount: string)
    ensures NamesBounded(mount) <==> !StartsMarked(mount)
  {
    if StartsMarked(mount) {
      var ids := ["00000000", "00000000"];
      MountGrows(mount, ids);
      assert |MountAfter(mount, ids)| > |mount| + 13;
    } else {
      forall ids | RotationIds(ids) ensures |MountAfter(mount, ids)| <= |mount| + 13 {
        MountBound(mount, ids);
      }
    }
  }

  ghost predicate NamesBounded(mount: string) {
    forall ids :: RotationIds(ids) ==> |MountAfter(mount, ids)| <= |mount| + 13
  }

  lemma {:induction false} MountBound(mount: string, ids: seq<string>)
    requires !StartsMarked(mount) && RotationIds(ids)
    ensures |MountAfter(mount, ids)| <= |mount| + 13
  {
    if |ids| > 0 { MountBaseBounded(mount, ids[..|ids| - 1]); }
  }

  /** The mark, appended to this name, is not found before its end. */
  ghost predicate FreeOfMark(mount: string) {
    forall j {:trigger (mount + MARK)[j..]} :: 0 <= j < |mount| ==> !("-rot-" <= (mount + MARK)[j..])
  }

  lemma {:induction false} BaseOfFree(mount: string, tail: string)
    requires FreeOfMark(mount) && mount != ""
    ensures BaseMount(mount) == mount && BaseMount(mount + MARK + tail) == mount
  {
    var m := mount + MARK + tail;
    forall j | 0 <= j < |mount| ensures !(MARK <= m[j..]) && !(MARK <= mount[j..]) {
      var whole := (mount + MARK)[j..];
      assert m[j..] == whole + tail;
      assert |whole| >= 5 && m[j..][..5] == whole[..5];
      assert |mount[j..]| >= 5 ==> mount[j..][..5] == whole[..5];
    }
    assert m[|mount|..] == MARK + tail;
  }

  /** However often a mount of an ordinary name is rotated, its name is the original with the last suffix. */
  lemma {:induction false} MountKeepsBase(mount: string, ids: seq<string>)
    requires FreeOfMark(mount) && mount != "" && ids != []
    ensures MountAfter(mount, ids) == mount + "-rot-" + ids[|ids| - 1]
    decreases |ids|
  {
    var before := ids[..|ids| - 1];
    if before == [] {
      BaseOfFree(mount, "");
    } else {
      MountKeepsBase(mount, before);
      BaseOfFree(mount, before[|before| - 1]);
    }
  }

  /** Any non-empty name that does not begin with '-' is safe. */
  lemma {:induction false} OrdinaryNamesUnmarked(mount: string)
    requires mount != "" && mount[0] != '-'
    ensures !StartsMarked(mount)
  {
    assert (mount + MARK)[0] == mount[0];
  }
}
