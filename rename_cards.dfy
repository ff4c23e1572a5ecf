/**
 * scripts/rename_cards.py: renames the card images of a directory so that
 * the rank letter becomes its number (a, t, j, q, k to 1, 10, 11, 12, 13)
 * and the name is lowercase. The directory listing is an input, taken once
 * before the loop as `os.listdir` does.
 */
module RenameCards {
  import opened Wrappers
  import opened FileSystem

  /** The number a rank letter of the lowercased name becomes; the first matching test wins. */
  function RankNumber(low: string): Option<string>
  {
    if StartsWith(low, 'a') then Some("1")
    else if StartsWith(low, 't') then Some("10")
    else if StartsWith(low, 'j') then Some("11")
    else if StartsWith(low, 'q') then Some("12")
    else if StartsWith(low, 'k') then Some("13")
    else None
  }

  /** The target path of one image, built as the script builds it. */
  function Target(dir: Path, name: string): Path
  {
    var low := Lower(name);
    match RankNumber(low)
      case Some(digits) => dir + "/" + digits + low[1..]
      case None => Lower(dir + "/" + name)
  }

  /** The new file name of an image: the rank number then the rest of the lowercased name, or just the lowercased name. */
  function TargetName(name: string): string
  {
    RankedName(Lower(name))
  }

  /** A lowercased name with its rank letter, if any, replaced by the rank number. */
  function RankedName(low: string): string
  {
    match RankNumber(low)
      case Some(digits) => digits + low[1..]
      case None => low
  }

  /** The rename one listed entry causes: one for a ".png" name, none otherwise. */
  function Steps(dir: Path, name: string): seq<Move>
  {
    if EndsWith(name, ".png") then [Move(dir + "/" + name, Target(dir, name))] else []
  }

  /** All the renames of a run, in listing order. */
  function Plan(dir: Path, names: seq<string>): seq<Move>
    decreases |names|
  {
    if names == [] then [] else Steps(dir, names[0]) + Plan(dir, names[1..])
  }

  /** The loop of the script over the listing. */
  method RenameAll<F>(fs: map<Path, F>, dir: Path, names: seq<string>) returns (r: Result<map<Path, F>, FsError>)
    ensures r == Apply(fs, Plan(dir, names))
  {
    var cur := fs;
    for i := 0 to |names|
      invariant Apply(fs, Plan(dir, names)) == Apply(cur, Plan(dir, names[i..]))
    {
      var name := names[i];
      assert names[i..][1..] == names[i + 1..];
      ApplyConcat(cur, Steps(dir, name), Plan(dir, names[i + 1..]));
      if EndsWith(name, ".png") {
        var path := dir + "/" + name;
        var next := Rename(cur, Move(path, Target(dir, name)));
        if next.Err? {
          return next;
        }
        assert [Move(path, Target(dir, name))][1..] == [];
        cur := next.value;
      }
    }
    assert names[|names|..] == [];
    return Ok(cur);
  }

  // ---------------------------------------------------------------------
  // Properties.
  // ---------------------------------------------------------------------

  /**
   * The target is the directory, a slash and the new file name. The
   * directory is kept when a rank letter matched and lowercased otherwise,
   * since the script then lowercases the whole path.
   */
  lemma TargetSplits(dir: Path, name: string)
    ensures RankNumber(Lower(name)).Some? ==> Target(dir, name) == dir + "/" + TargetName(name)
    ensures RankNumber(Lower(name)).None? ==> Target(dir, name) == Lower(dir) + "/" + TargetName(name)
  {
    var low := Lower(name);
    match RankNumber(low)
    case Some(digits) =>
      assert dir + "/" + digits + low[1..] == dir + "/" + (digits + low[1..]);
    case None =>
      LowerPath(dir, name);
  }

  lemma LowerPath(dir: Path, name: string)
    ensures Lower(dir + "/" + name) == Lower(dir) + "/" + Lower(name)
  {
    var l, r := Lower(dir + "/" + name), Lower(dir) + "/" + Lower(name);
    assert |l| == |r|;
    forall i | 0 <= i < |l| ensures l[i] == r[i] {
      if i < |dir| {
        assert (dir + "/" + name)[i] == dir[i];
      } else if i == |dir| {
        assert (dir + "/" + name)[i] == '/';
      } else {
        assert (dir + "/" + name)[i] == name[i - |dir| - 1];
      }
    }
  }

  /** The new file name of an image is lowercase and still ends in ".png". */
  lemma TargetNameIsLowercasePng(name: string)
    requires EndsWith(name, ".png")
    ensures IsLowerCase(TargetName(name)) && EndsWith(TargetName(name), ".png")
  {
    TargetNameIsLowercase(name);
    TargetNameEndsWithPng(name);
  }

  lemma TargetNameIsLowercase(name: string)
    ensures IsLowerCase(TargetName(name))
  {
    var low := Lower(name);
    LowerProperties(name, "");
    match RankNumber(low)
    case None =>
    case Some(digits) =>
      assert IsLowerCase(digits);
      LowerCaseConcat(digits, low[1..]);
  }

  lemma TargetNameEndsWithPng(name: string)
    requires EndsWith(name, ".png")
    ensures EndsWith(TargetName(name), ".png")
  {
    LowerKeepsSuffix(name, ".png");
    RankedNameEndsWithPng(Lower(name));
  }

  lemma RankedNameEndsWithPng(low: string)
    requires EndsWith(low, ".png")
    ensures EndsWith(RankedName(low), ".png")
  {
    match RankNumber(low)
    case None =>
    case Some(digits) =>
      assert low[0] != '.';
      RankedKeepsSuffix(digits, low);
  }

  /** Replacing a first character other than '.' by digits keeps the ".png" suffix. */
  lemma RankedKeepsSuffix(digits: string, low: string)
    requires EndsWith(low, ".png") && low[0] != '.'
    ensures EndsWith(digits + low[1..], ".png")
  {
    assert |low| > 4 by {
      assert low[|low| - 4] == low[|low| - 4..][0] == '.';
    }
    DropFirstKeepsSuffix(low, ".png");
    PrependKeepsSuffix(digits, low[1..], ".png");
  }

  lemma LowerCaseConcat(a: string, b: string)
    requires IsLowerCase(a) && IsLowerCase(b)
    ensures IsLowerCase(a + b)
  {
    assert forall i :: 0 <= i < |a + b| ==> (a + b)[i] == if i < |a| then a[i] else b[i - |a|];
  }

  lemma DropFirstKeepsSuffix(s: string, suffix: string)
    requires EndsWith(s, suffix) && |s| > |suffix|
    ensures EndsWith(s[1..], suffix)
  {
    assert s[1..][|s| - 1 - |suffix|..] == s[|s| - |suffix|..];
  }

  lemma PrependKeepsSuffix(d: string, s: string, suffix: string)
    requires EndsWith(s, suffix)
    ensures EndsWith(d + s, suffix)
  {
    assert (d + s)[|d + s| - |suffix|..] == s[|s| - |suffix|..];
  }

  /** "a" keeps the length of the name; "t", "j", "q" and "k" add one character. */
  lemma TargetNameLength(name: string)
    ensures StartsWith(Lower(name), 'a') ==> |TargetName(name)| == |name|
    ensures RankNumber(Lower(name)).Some? && !StartsWith(Lower(name), 'a') ==> |TargetName(name)| == |name| + 1
    ensures RankNumber(Lower(name)).None? ==> |TargetName(name)| == |name|
  {
  }

  /** The rank tests see the name lowercased: an upper-case rank letter matches too. */
  lemma RankLetterEitherCase(name: string)
    requires |name| > 0 && (name[0] == 'K' || name[0] == 'k')
    ensures RankNumber(Lower(name)) == Some("13")
  {
  }

  /** Every rename moves a ".png" entry of the listing. */
  lemma {:induction false} OnlyPngRenamed(dir: Path, names: seq<string>, i: nat)
    requires i < |Plan(dir, names)|
    ensures exists n :: n in names && EndsWith(n, ".png") && Plan(dir, names)[i] == Move(dir + "/" + n, Target(dir, n))
    decreases |names|
  {
    var s := Steps(dir, names[0]);
    if i < |s| {
      assert Plan(dir, names)[i] == s[0];
    } else {
      assert Plan(dir, names)[i] == Plan(dir, names[1..])[i - |s|];
      OnlyPngRenamed(dir, names[1..], i - |s|);
      var n :| n in names[1..] && EndsWith(n, ".png") && Plan(dir, names[1..])[i - |s|] == Move(dir + "/" + n, Target(dir, n));
      assert n in names;
    }
  }

  /** Every target of a run ends in ".png". */
  lemma TargetEndsWithPng(dir: Path, name: string)
    requires EndsWith(name, ".png")
    ensures EndsWith(Target(dir, name), ".png")
  {
    TargetSplits(dir, name);
    TargetNameEndsWithPng(name);
    var d := if RankNumber(Lower(name)).Some? then dir else Lower(dir);
    PrependKeepsSuffix(d + "/", TargetName(name), ".png");
  }

  /** A path whose name does not end in ".png" is neither the source nor the target of an image's rename. */
  lemma NotMovedByImage(dir: Path, m: string, n: string)
    requires EndsWith(m, ".png") && !EndsWith(n, ".png")
    ensures dir + "/" + m != dir + "/" + n
    ensures Target(dir, m) != dir + "/" + n
  {
    TargetEndsWithPng(dir, m);
    NotPngPath(dir, m);
    NotPngPath(dir, n);
  }

  /** A path ends in ".png" exactly when its file name does. */
  lemma NotPngPath(dir: Path, n: string)
    ensures EndsWith(dir + "/" + n, ".png") <==> EndsWith(n, ".png")
  {
    var p := dir + "/" + n;
    if |n| >= 4 {
      assert p[|p| - 4..] == n[|n| - 4..];
    } else if |p| >= 4 {
      assert p[|p| - 4..][3 - |n|] == '/';
    }
  }

  /** An entry whose name does not end in ".png" keeps its content when the run succeeds. */
  lemma NonPngUntouched<F>(fs: map<Path, F>, dir: Path, names: seq<string>, n: string)
    requires Apply(fs, Plan(dir, names)).Ok? && !EndsWith(n, ".png")
    requires dir + "/" + n in fs
    ensures var fs' := Apply(fs, Plan(dir, names)).value;
      dir + "/" + n in fs' && fs'[dir + "/" + n] == fs[dir + "/" + n]
  {
    var p := dir + "/" + n;
    var plan := Plan(dir, names);
    forall i | 0 <= i < |plan| ensures plan[i].src != p && plan[i].dst != p {
      OnlyPngRenamed(dir, names, i);
      var m :| m in names && EndsWith(m, ".png") && plan[i] == Move(dir + "/" + m, Target(dir, m));
      NotMovedByImage(dir, m, n);
    }
    ApplyFrame(fs, plan, p);
  }
}
