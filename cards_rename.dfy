/**
 * build/content/cards/rename.py: in the current directory, every ".png"
 * image is first renamed to its lowercase name; then, looking at the name
 * as listed, a leading 'a' is renamed to "1" and a leading 'j', 'q' or 'k'
 * to "10", "11" or "12". The second rename uses the listed name as its
 * source, so it finds the file only when that name was lowercase already.
 * The `print` calls are not modelled.
 */
module CardsRename {
  import opened Wrappers
  import opened FileSystem
  import RenameCards

  /** The rank rename the 'a' test makes, if any. */
  function AceStep(name: string): seq<Move>
  {
    if StartsWith(name, 'a') then [Move(name, "1" + name[1..])] else []
  }

  /** The rank rename the j/q/k chain makes, if any. */
  function FaceStep(name: string): seq<Move>
  {
    if StartsWith(name, 'j') then [Move(name, "10" + name[1..])]
    else if StartsWith(name, 'q') then [Move(name, "11" + name[1..])]
    else if StartsWith(name, 'k') then [Move(name, "12" + name[1..])]
    else []
  }

  /** The renames one listed entry causes. */
  function Steps(name: string): seq<Move>
  {
    if EndsWith(name, ".png") then [Move(name, Lower(name))] + AceStep(name) + FaceStep(name) else []
  }

  /** All the renames of a run, in listing order. */
  function Plan(names: seq<string>): seq<Move>
    decreases |names|
  {
    if names == [] then [] else Steps(names[0]) + Plan(names[1..])
  }

  /** The loop of the script over the listing of the current directory. */
  method RenameAll<F>(fs: map<Path, F>, names: seq<string>) returns (r: Result<map<Path, F>, FsError>)
    ensures r == Apply(fs, Plan(names))
  {
    var cur := fs;
    for i := 0 to |names|
      invariant Apply(fs, Plan(names)) == Apply(cur, Plan(names[i..]))
    {
      var name := names[i];
      assert names[i..][1..] == names[i + 1..];
      ApplyConcat(cur, Steps(name), Plan(names[i + 1..]));
      if EndsWith(name, ".png") {
        var next := RenameImage(cur, name);
        if next.Err? {
          return next;
        }
        cur := next.value;
      } else {
        assert Steps(name) == [];
      }
    }
    assert names[|names|..] == [];
    return Ok(cur);
  }

  /** The body of the loop for one ".png" entry: the lowercase rename, then the rank renames. */
  method RenameImage<F>(fs: map<Path, F>, name: string) returns (r: Result<map<Path, F>, FsError>)
    requires EndsWith(name, ".png")
    ensures r == Apply(fs, Steps(name))
  {
    var first := [Move(name, Lower(name))];
    assert Steps(name) == first + (AceStep(name) + FaceStep(name));
    ApplyConcat(fs, first, AceStep(name) + FaceStep(name));
    r := Rename(fs, Move(name, Lower(name)));
    if r.Err? {
      return;
    }
    assert first[1..] == [];
    var cur := r.value;
    ApplyConcat(cur, AceStep(name), FaceStep(name));
    if StartsWith(name, 'a') {
      r := RenameAtMostOnce(cur, AceStep(name));
    } else {
      r := Ok(cur);
    }
    if r.Err? {
      return;
    }
    cur := r.value;
    r := RenameAtMostOnce(cur, FaceStep(name));
  }

  /** One `os.rename` when the step holds a move, none when it is empty. */
  method RenameAtMostOnce<F>(fs: map<Path, F>, step: seq<Move>) returns (r: Result<map<Path, F>, FsError>)
    requires |step| <= 1
    ensures r == Apply(fs, step)
  {
    if step == [] {
      return Ok(fs);
    }
    r := Rename(fs, step[0]);
    assert step[1..] == [];
  }

  // ---------------------------------------------------------------------
  // Properties.
  // ---------------------------------------------------------------------

  /** The first rename of an image is always to its lowercase name. */
  lemma LowercaseFirst(name: string)
    requires EndsWith(name, ".png")
    ensures |Steps(name)| >= 1 && Steps(name)[0] == Move(name, Lower(name))
  {
  }

  /** The 'a' test and the j/q/k chain never both match: at most one rank rename per image. */
  lemma AtMostOneRankRename(name: string)
    ensures |AceStep(name) + FaceStep(name)| <= 1
    ensures |Steps(name)| <= 2
  {
  }

  /** There is no 't' rule, and the tests are case-sensitive: "K.png" gets only the lowercase rename. */
  lemma NoTenRuleAndCaseSensitive(name: string)
    requires EndsWith(name, ".png") && |name| > 0 && (name[0] == 't' || IsUpper(name[0]))
    ensures Steps(name) == [Move(name, Lower(name))]
  {
  }

  /** The two scripts disagree on 'k': this one gives "12", scripts/rename_cards.py gives "13". */
  lemma KingDiffersFromOtherScript(name: string)
    requires EndsWith(name, ".png") && StartsWith(name, 'k') && IsLowerCase(name)
    ensures FaceStep(name) == [Move(name, "12" + name[1..])]
    ensures RenameCards.TargetName(name) == "13" + name[1..]
  {
    LowerProperties(name, "");
  }

  /**
   * For an image with a rank rename, the run of its steps succeeds exactly
   * when its listed name is lowercase already: otherwise the first rename
   * has moved the file away from the name the second one looks for.
   */
  lemma RankRenameNeedsLowercase<F>(fs: map<Path, F>, name: string)
    requires name in fs && EndsWith(name, ".png") && AceStep(name) + FaceStep(name) != []
    ensures Apply(fs, Steps(name)).Ok? <==> Lower(name) == name
  {
    var first := Rename(fs, Move(name, Lower(name)));
    var rank := (AceStep(name) + FaceStep(name))[0];
    assert Steps(name) == [Move(name, Lower(name)), rank];
    assert Steps(name)[1..] == [rank] && [rank][1..] == [];
    assert rank.src == name;
    assert Apply(fs, Steps(name)) == Apply(first.value, [rank]);
    assert Apply(first.value, [rank]).Ok? <==> name in first.value;
    assert name in first.value <==> Lower(name) == name;
  }

  /** An entry whose name does not end in ".png" keeps its content when the run succeeds. */
  lemma NonPngUntouched<F>(fs: map<Path, F>, names: seq<string>, n: string)
    requires Apply(fs, Plan(names)).Ok? && !EndsWith(n, ".png") && n in fs
    ensures n in Apply(fs, Plan(names)).value && Apply(fs, Plan(names)).value[n] == fs[n]
  {
    PlanAvoids(names, n);
    ApplyFrame(fs, Plan(names), n);
  }

  /** No rename of the plan mentions a name that does not end in ".png". */
  lemma {:induction false} PlanAvoids(names: seq<string>, n: string)
    requires !EndsWith(n, ".png")
    ensures Untouched(n, Plan(names))
    decreases |names|
  {
    if names != [] {
      PlanAvoids(names[1..], n);
      var s := Steps(names[0]);
      StepsAvoid(names[0], n);
      var plan := Plan(names);
      forall i | 0 <= i < |plan| ensures plan[i].src != n && plan[i].dst != n {
        if i >= |s| {
          assert plan[i] == Plan(names[1..])[i - |s|];
        }
      }
    }
  }

  lemma StepsAvoid(name: string, n: string)
    requires !EndsWith(n, ".png")
    ensures Untouched(n, Steps(name))
  {
    if EndsWith(name, ".png") {
      LowerKeepsSuffix(name, ".png");
      var rest := name[1..];
      assert |name| >= 4;
      if |name| > 4 {
        assert EndsWith(rest, ".png") by {
          assert rest[|rest| - 4..] == name[|name| - 4..];
        }
        EndsWithPrefixed("1", rest);
        EndsWithPrefixed("10", rest);
        EndsWithPrefixed("11", rest);
        EndsWithPrefixed("12", rest);
      }
    }
  }

  lemma EndsWithPrefixed(p: string, s: string)
    requires EndsWith(s, ".png")
    ensures EndsWith(p + s, ".png")
  {
    assert (p + s)[|p + s| - 4..] == s[|s| - 4..];
  }
}
