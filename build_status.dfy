/** The frontend's build-status vocabulary
    (jenkins-platform-frontend/src/types/index.ts): the classifier from a
    job's ball colour to a status, and the colour and label of each status. */
module BuildStatusView {

  datatype BuildStatus = Success | Failure | Unstable | Aborted | NotBuilt | Building

  /** `s.includes(sub)`. */
  predicate Contains(s: string, sub: string)
    decreases |s|
    ensures sub <= s ==> Contains(s, sub)
    ensures Contains(s, sub) ==> |sub| <= |s|
  {
    sub <= s || (s != [] && Contains(s[1..], sub))
  }

  /** `sub` occurs in `s` starting at position `i`. */
  predicate OccursAt(s: string, sub: string, i: int)
  {
    0 <= i && i + |sub| <= |s| && s[i..i + |sub|] == sub
  }

  /** Dropping the first character of `s` moves every occurrence one place left. */
  lemma OccursShift(s: string, sub: string, i: int)
    requires s != [] && 0 <= i
    ensures OccursAt(s[1..], sub, i) <==> OccursAt(s, sub, i + 1)
  {
    if i + 1 + |sub| <= |s| {
      assert s[1..][i..i + |sub|] == s[i + 1..i + 1 + |sub|];
    }
  }

  /** `includes` holds exactly when `sub` occurs at some position of `s`. */
  lemma {:induction false} ContainsIffOccurs(s: string, sub: string)
    ensures Contains(s, sub) <==> exists i :: OccursAt(s, sub, i)
  {
    if sub <= s {
      assert OccursAt(s, sub, 0);
    } else if s != [] {
      ContainsIffOccurs(s[1..], sub);
      if exists i :: OccursAt(s, sub, i) {
        var i :| OccursAt(s, sub, i);
        if i == 0 {
          assert false;
        }
        OccursShift(s, sub, i - 1);
      }
      if Contains(s[1..], sub) {
        var i :| OccursAt(s[1..], sub, i);
        OccursShift(s, sub, i);
      }
    }
  }

  /** A string without the first character of `sub` cannot contain `sub`. */
  lemma {:induction false} MissingFirstCharNotContained(s: string, sub: string)
    requires sub != [] && sub[0] !in s
    ensures !Contains(s, sub)
  {
    if s != [] {
      assert s[1..] <= s[1..] && forall c :: c in s[1..] ==> c in s;
      MissingFirstCharNotContained(s[1..], sub);
    }
  }

  /** `colorToStatus`: an animated ball ('anime' anywhere) is BUILDING before
      any prefix is looked at; otherwise the colour's prefix decides, and
      every other colour is NOT_BUILT. */
  function ColorToStatus(color: string): (status: BuildStatus)
    ensures status == Building <==> Contains(color, "anime")
  {
    if Contains(color, "anime") then Building
    else if "blue" <= color then Success
    else if "red" <= color then Failure
    else if "yellow" <= color then Unstable
    else if "aborted" <= color then Aborted
    else NotBuilt
  }

  /** Every animated ball colour (`<base>_anime`) classifies as BUILDING,
      whatever its base colour. */
  lemma AnimatedColorIsBuilding(base: string)
    ensures ColorToStatus(base + "_anime") == Building
  {
    var s := base + "_anime";
    assert OccursAt(s, "anime", |base| + 1);
    ContainsIffOccurs(s, "anime");
  }

  /** A colour without 'anime' is classified by its prefix alone: the four
      prefixes exclude one another, so their order does not matter, and a
      colour with none of them is NOT_BUILT. */
  lemma PrefixClassification(color: string)
    requires !Contains(color, "anime")
    ensures "blue" <= color ==> ColorToStatus(color) == Success
    ensures "red" <= color ==> ColorToStatus(color) == Failure
    ensures "yellow" <= color ==> ColorToStatus(color) == Unstable
    ensures "aborted" <= color ==> ColorToStatus(color) == Aborted
    ensures !("blue" <= color) && !("red" <= color) && !("yellow" <= color) && !("aborted" <= color)
            ==> ColorToStatus(color) == NotBuilt
  {
    if "red" <= color {
      assert color[0] == 'r';
    } else if "yellow" <= color {
      assert color[0] == 'y';
    } else if "aborted" <= color {
      assert color[0] == 'a';
    }
  }

  /** The ball colours the CI server reports for a finished build. */
  function BallColor(status: BuildStatus): string
  {
    match status
    case Success => "blue"
    case Failure => "red"
    case Unstable => "yellow"
    case Aborted => "aborted"
    case NotBuilt => "notbuilt"
    case Building => "blue_anime"
  }

  /** Classifying the ball colour of a status gives that status back: every
      status is reachable and the classifier inverts the colour scheme. */
  lemma BallColorClassifies(status: BuildStatus)
    ensures ColorToStatus(BallColor(status)) == status
  {
    match status
    case Success => PlainColorClassifies("blue");
    case Failure => PlainColorClassifies("red");
    case Unstable => PlainColorClassifies("yellow");
    case Aborted =>
      AbortedIsNotAnimated();
      PrefixClassification("aborted");
    case NotBuilt => NotBuiltColorClassifies();
    case Building =>
      assert "blue_anime" == "blue" + "_anime";
      AnimatedColorIsBuilding("blue");
  }

  /** The plain colours blue, red and yellow have no 'a' in them, so each
      is classified by its own prefix. */
  lemma PlainColorClassifies(color: string)
    requires color == "blue" || color == "red" || color == "yellow"
    ensures color == "blue" ==> ColorToStatus(color) == Success
    ensures color == "red" ==> ColorToStatus(color) == Failure
    ensures color == "yellow" ==> ColorToStatus(color) == Unstable
  {
    assert 'a' !in color;
    MissingFirstCharNotContained(color, "anime");
    PrefixClassification(color);
  }

  lemma AbortedIsNotAnimated()
    ensures !Contains("aborted", "anime")
  {
    assert "aborted"[1..] == "borted";
    MissingFirstCharNotContained("borted", "anime");
    assert "aborted"[1] != "anime"[1];
  }

  lemma NotBuiltColorClassifies()
    ensures ColorToStatus("notbuilt") == NotBuilt
  {
    var color := "notbuilt";
    MissingFirstCharNotContained(color, "anime");
    assert color[0] == 'n';
    assert !("blue" <= color) && !("red" <= color) && !("yellow" <= color) && !("aborted" <= color);
    PrefixClassification(color);
  }

  predicate IsHexDigit(c: char)
  {
    '0' <= c <= '9' || 'a' <= c <= 'f'
  }

  /** A CSS colour `#rrggbb`. */
  predicate IsHexColor(s: string)
  {
    |s| == 7 && s[0] == '#' && forall i :: 1 <= i < 7 ==> IsHexDigit(s[i])
  }

  /** The colour shown for an unknown status (`|| '#d9d9d9'`). */
  const FallbackColor: string := "#d9d9d9"

  /** `getStatusColor`. */
  function GetStatusColor(status: BuildStatus): (color: string)
    ensures IsHexColor(color)
  {
    match status
    case Success => "#52c41a"
    case Failure => "#ff4d4f"
    case Unstable => "#faad14"
    case Aborted => "#8c8c8c"
    case NotBuilt => "#d9d9d9"
    case Building => "#1890ff"
  }

  /** Different statuses are shown in different colours, and only NOT_BUILT
      shares its colour with the fallback for unknown statuses. */
  lemma StatusColorsDistinct(a: BuildStatus, b: BuildStatus)
    ensures GetStatusColor(a) == GetStatusColor(b) <==> a == b
    ensures GetStatusColor(a) == FallbackColor <==> a == NotBuilt
  {
  }

  /** The label shown for an unknown status (`|| '未知'`). */
  const FallbackText: string := "未知"

  /** `getStatusText`. */
  function GetStatusText(status: BuildStatus): (text: string)
    ensures text != ""
    ensures text != FallbackText
  {
    match status
    case Success => "成功"
    case Failure => "失败"
    case Unstable => "不稳定"
    case Aborted => "已中止"
    case NotBuilt => "未构建"
    case Building => "构建中"
  }

  /** Different statuses get different labels. */
  lemma StatusTextsDistinct(a: BuildStatus, b: BuildStatus)
    ensures GetStatusText(a) == GetStatusText(b) <==> a == b
  {
  }
}
