/**
 Names on the node: the device-mapper path behind the existence check, and the LV names of
 snapshots.
 */
module Names {
  import opened Records

  /** Every hyphen becomes two. */
  function Doubled(s: string): string {
    if s == "" then "" else (if s[0] == '-' then "--" else [s[0]]) + Doubled(s[1..])
  }

  const DEV_MAPPER_PATH := "/dev/mapper/"

  function DevName(vg: string, lv: string): string {
    Doubled(vg) + "-" + Doubled(lv)
  }

  function VolumeDevPath(vg: string, lv: string): string {
    DEV_MAPPER_PATH + DevName(vg, lv)
  }

  /** Reads a device name back: a pair of hyphens is a hyphen, a single one separates. */
  function Undouble(s: string): Option<string> {
    if s == "" then Some("")
    else if s[0] != '-' then
      match Undouble(s[1..])
      case Some(t) => Some([s[0]] + t)
      case None => None
    else if |s| >= 2 && s[1] == '-' then
      match Undouble(s[2..])
      case Some(t) => Some("-" + t)
      case None => None
    else None
  }

  function Decode(s: string): Option<(string, string)> {
    if s == "" then None
    else if s[0] != '-' then
      match Decode(s[1..])
      case Some(p) => Some(([s[0]] + p.0, p.1))
      case None => None
    else if |s| >= 2 && s[1] == '-' then
      match Decode(s[2..])
      case Some(p) => Some(("-" + p.0, p.1))
      case None => None
    else
      match Undouble(s[1..])
      case Some(lv) => Some(("", lv))
      case None => None
  }

  lemma {:induction false} UndoubleInverts(s: string)
    ensures Undouble(Doubled(s)) == Some(s)
  {
    if s != "" {
      UndoubleInverts(s[1..]);
      assert s == [s[0]] + s[1..];
      if s[0] == '-' {
        assert Doubled(s)[2..] == Doubled(s[1..]);
      } else {
        assert Doubled(s)[1..] == Doubled(s[1..]);
      }
    }
  }

  /** The device name can be read back exactly when the LV name does not start with a hyphen. */
  lemma {:induction false} DecodeInverts(vg: string, lv: string)
    requires lv == "" || lv[0] != '-'
    ensures Decode(DevName(vg, lv)) == Some((vg, lv))
    ensures "/dev/mapper/" <= VolumeDevPath(vg, lv) && Decode(VolumeDevPath(vg, lv)[12..]) == Some((vg, lv))
  {
    var s := DevName(vg, lv);
    assert VolumeDevPath(vg, lv)[12..] == s;
    if vg == "" {
      UndoubleInverts(lv);
      assert s == "-" + Doubled(lv) && s[1..] == Doubled(lv);
    } else {
      DecodeInverts(vg[1..], lv);
      assert vg == [vg[0]] + vg[1..];
      if vg[0] == '-' {
        assert s == "--" + DevName(vg[1..], lv) && s[2..] == DevName(vg[1..], lv);
      } else {
        assert s == [vg[0]] + DevName(vg[1..], lv) && s[1..] == DevName(vg[1..], lv);
      }
    }
  }

  /** The existence check never confuses two volumes. */
  lemma DevPathIsInjective(vg1: string, lv1: string, vg2: string, lv2: string)
    requires lv1 == "" || lv1[0] != '-'
    requires lv2 == "" || lv2[0] != '-'
    requires VolumeDevPath(vg1, lv1) == VolumeDevPath(vg2, lv2)
    ensures vg1 == vg2 && lv1 == lv2
  {
    DecodeInverts(vg1, lv1);
    DecodeInverts(vg2, lv2);
    assert VolumeDevPath(vg1, lv1)[|DEV_MAPPER_PATH|..] == DevName(vg1, lv1);
    assert VolumeDevPath(vg2, lv2)[|DEV_MAPPER_PATH|..] == DevName(vg2, lv2);
  }

  lemma SeqsAssociate(a: string, b: string, c: string)
    ensures a + (b + c) == (a + b) + c
  {
  }

  lemma {:induction false} DoubledAppends(a: string, b: string)
    ensures Doubled(a + b) == Doubled(a) + Doubled(b)
  {
    if a == "" {
      assert a + b == b;
    } else {
      DoubledAppends(a[1..], b);
      var head := if a[0] == '-' then "--" else [a[0]];
      calc {
        Doubled(a + b);
        { assert (a + b)[1..] == a[1..] + b && (a + b)[0] == a[0]; }
        head + Doubled(a[1..] + b);
        head + (Doubled(a[1..]) + Doubled(b));
        { SeqsAssociate(head, Doubled(a[1..]), Doubled(b)); }
        Doubled(a) + Doubled(b);
      }
    }
  }

  /** The condition on LV names is needed for every one of them: a leading hyphen can move to the volume group. */
  lemma LeadingHyphenIsConfused(vg: string, lv: string)
    ensures VolumeDevPath(vg, "-" + lv) == VolumeDevPath(vg + "-", lv)
  {
    DoubledAppends(vg, "-");
    assert Doubled("-") == "--" by {
      assert "-"[1..] == "";
    }
    var front, back := Doubled(vg), Doubled(lv);
    calc {
      DevName(vg, "-" + lv);
      { assert ("-" + lv)[1..] == lv; }
      front + "-" + ("--" + back);
      { SeqsAssociate(front, "-", "--" + back); SeqsAssociate("-", "--", back); }
      front + ("-" + "--" + back);
      { assert "-" + "--" == "--" + "-"; SeqsAssociate("--", "-", back); }
      front + ("--" + ("-" + back));
      { SeqsAssociate(front, "--", "-" + back); SeqsAssociate(front + "--", "-", back); }
      front + "--" + "-" + back;
      DevName(vg + "-", lv);
    }
  }

  const SNAPSHOT_PREFIX := "snapshot-"

  predicate HasPrefix(s: string) {
    SNAPSHOT_PREFIX <= s
  }

  /** The LV name of a snapshot: names that start with "snapshot" are reserved in LVM. */
  function SnapLvName(s: string): string {
    if HasPrefix(s) then s[|SNAPSHOT_PREFIX|..] else s
  }

  /** Two snapshots share an LV name exactly when their names differ in the prefix alone. */
  lemma SnapLvNamesCollideIff(a: string, b: string)
    ensures SnapLvName(a) == SnapLvName(b) && a != b <==>
              (!HasPrefix(b) && a == SNAPSHOT_PREFIX + b) || (!HasPrefix(a) && b == SNAPSHOT_PREFIX + a)
    ensures SnapLvName("snapshot-" + a) == a
  {
    assert HasPrefix(a) ==> a == SNAPSHOT_PREFIX + SnapLvName(a);
    assert HasPrefix(b) ==> b == SNAPSHOT_PREFIX + SnapLvName(b);
    assert (SNAPSHOT_PREFIX + b)[|SNAPSHOT_PREFIX|..] == b;
    assert (SNAPSHOT_PREFIX + a)[|SNAPSHOT_PREFIX|..] == a;
  }
}
