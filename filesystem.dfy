/**
 * The directory and the `os.rename` both card-rename scripts rely on. A
 * directory is a map from path to file content; a rename needs its source
 * to exist, and replaces whatever the target held (the POSIX rule). Names
 * are compared exactly, as on a case-sensitive file system.
 */
module FileSystem {
  import opened Wrappers

  type Path = string

  datatype FsError = NotFound(path: Path)

  /** One `os.rename(src, dst)`. */
  datatype Move = Move(src: Path, dst: Path)

  /** `os.rename`: fails when the source does not exist, otherwise moves its content to the target. */
  function Rename<F>(fs: map<Path, F>, m: Move): (r: Result<map<Path, F>, FsError>)
    ensures r.Err? <==> m.src !in fs
    ensures r.Ok? ==> r.value.Keys == fs.Keys - {m.src} + {m.dst} && r.value[m.dst] == fs[m.src]
    ensures r.Ok? ==> forall p :: p in fs && p != m.src && p != m.dst ==> r.value[p] == fs[p]
  {
    if m.src !in fs then Err(NotFound(m.src)) else Ok((fs - {m.src})[m.dst := fs[m.src]])
  }

  /** The renames done one after the other; the first failure stops the run, as an uncaught exception does. */
  function Apply<F>(fs: map<Path, F>, moves: seq<Move>): Result<map<Path, F>, FsError>
    decreases |moves|
  {
    if moves == [] then Ok(fs)
    else match Rename(fs, moves[0])
      case Err(e) => Err(e)
      case Ok(fs') => Apply(fs', moves[1..])
  }

  /** The path appears in no move of the sequence. */
  predicate Untouched(p: Path, moves: seq<Move>)
  {
    forall i :: 0 <= i < |moves| ==> moves[i].src != p && moves[i].dst != p
  }

  /** Running two sequences of renames is running the first, then the second on its result. */
  lemma {:induction false} ApplyConcat<F>(fs: map<Path, F>, a: seq<Move>, b: seq<Move>)
    ensures Apply(fs, a + b) == match Apply(fs, a)
      case Err(e) => Err(e)
      case Ok(fs') => Apply(fs', b)
    decreases |a|
  {
    if a == [] {
      assert a + b == b;
    } else {
      assert (a + b)[0] == a[0] && (a + b)[1..] == a[1..] + b;
      match Rename(fs, a[0])
      case Err(_) =>
      case Ok(fs') => ApplyConcat(fs', a[1..], b);
    }
  }

  /** A successful run leaves every path no rename mentions as it was. */
  lemma {:induction false} ApplyFrame<F>(fs: map<Path, F>, moves: seq<Move>, p: Path)
    requires Apply(fs, moves).Ok? && Untouched(p, moves)
    ensures p in fs <==> p in Apply(fs, moves).value
    ensures p in fs ==> Apply(fs, moves).value[p] == fs[p]
    decreases |moves|
  {
    if moves != [] {
      var fs' := Rename(fs, moves[0]).value;
      assert Untouched(p, moves[1..]) by {
        forall i | 0 <= i < |moves[1..]|
          ensures moves[1..][i].src != p && moves[1..][i].dst != p
        {
          assert moves[1..][i] == moves[i + 1];
        }
      }
      ApplyFrame(fs', moves[1..], p);
    }
  }

  // ---------------------------------------------------------------------
  // Python string helpers, on ASCII text.
  // ---------------------------------------------------------------------

  predicate IsUpper(c: char)
  {
    'A' <= c <= 'Z'
  }

  function LowerChar(c: char): (d: char)
    ensures !IsUpper(d)
    ensures IsUpper(c) ==> d as int == c as int + 32
    ensures !IsUpper(c) ==> d == c
  {
    if IsUpper(c) then (c as int + 32) as char else c
  }

  /** `str.lower()` on ASCII letters. */
  function Lower(s: string): (t: string)
    ensures |t| == |s| && forall i :: 0 <= i < |s| ==> t[i] == LowerChar(s[i])
  {
    seq(|s|, i requires 0 <= i < |s| => LowerChar(s[i]))
  }

  predicate IsLowerCase(s: string)
  {
    forall i :: 0 <= i < |s| ==> !IsUpper(s[i])
  }

  /** `str.endswith(suffix)`. */
  predicate EndsWith(s: string, suffix: string)
  {
    |suffix| <= |s| && s[|s| - |suffix|..] == suffix
  }

  /** `str.startswith(c)` for a one-character prefix. */
  predicate StartsWith(s: string, c: char)
  {
    |s| > 0 && s[0] == c
  }

  lemma LowerProperties(s: string, t: string)
    ensures IsLowerCase(Lower(s))
    ensures Lower(Lower(s)) == Lower(s)
    ensures Lower(s + t) == Lower(s) + Lower(t)
    ensures IsLowerCase(s) ==> Lower(s) == s
  {
    assert Lower(s + t) == Lower(s) + Lower(t) by {
      var l, r := Lower(s + t), Lower(s) + Lower(t);
      assert |l| == |r|;
      forall i | 0 <= i < |l| ensures l[i] == r[i] {
        if i < |s| { assert (s + t)[i] == s[i]; } else { assert (s + t)[i] == t[i - |s|]; }
      }
    }
  }

  /** Lowercasing keeps a lowercase suffix. */
  lemma LowerKeepsSuffix(s: string, suffix: string)
    requires EndsWith(s, suffix) && IsLowerCase(suffix)
    ensures EndsWith(Lower(s), suffix)
  {
    assert Lower(s)[|s| - |suffix|..] == suffix by {
      forall i | 0 <= i < |suffix| ensures Lower(s)[|s| - |suffix|..][i] == suffix[i] {
        assert s[|s| - |suffix| + i] == suffix[i];
      }
    }
  }
}
