/** Which pipelines share a checkpoint file: checkpointPath in orchestrator/engine/checkpoint.go. */
module CheckpointFiles {
  import opened Checkpoints

  /** The last two components of a path, or its only one, without the extension. */
  function Identity(path: string): (r: seq<string>)
    ensures 1 <= |r| <= 2
  {
    var parts := SplitSlash(TrimSuffix(TrimSuffix(path, ".yaml"), ".yml"));
    if |parts| >= 2 then parts[|parts| - 2..] else parts
  }

  /** A character put before a path that has been split. */
  function Before(c: char, parts: seq<string>): seq<string>
    requires parts != []
  {
    if c == '/' then [""] + parts else [[c] + parts[0]] + parts[1..]
  }

  lemma SplitBefore(s: string)
    requires s != ""
    ensures SplitSlash(s) == Before(s[0], SplitSlash(s[1..]))
  {
  }

  lemma BeforeConcat(c: char, x: seq<string>, y: seq<string>)
    requires x != []
    ensures Before(c, x + y) == Before(c, x) + y
  {
  }

  lemma {:induction false} SplitAt(a: string, b: string)
    ensures SplitSlash(a + "/" + b) == SplitSlash(a) + SplitSlash(b)
  {
    var s := a + "/" + b;
    SplitBefore(s);
    if a == "" {
      assert s[1..] == b;
    } else {
      hide SplitSlash, Before;
      assert s[0] == a[0] && s[1..] == a[1..] + "/" + b;
      SplitAt(a[1..], b);
      SplitBefore(a);
      BeforeConcat(a[0], SplitSlash(a[1..]), SplitSlash(b));
    }
  }

  lemma {:induction false} NothingToSplit(s: string)
    requires '/' !in s
    ensures SplitSlash(s) == [s]
  {
    if s != "" {
      assert s == [s[0]] + s[1..] && s[0] in s;
      assert forall c :: c in s[1..] ==> c in s;
      NothingToSplit(s[1..]);
    }
  }

  predicate EndsWith(s: string, suffix: string) {
    |suffix| <= |s| && s[|s| - |suffix|..] == suffix
  }

  lemma SuffixOfLast(dir: string, b: string, suffix: string)
    requires '/' !in suffix && !EndsWith(b, suffix) && suffix != ""
    ensures !EndsWith(dir + "/" + b, suffix)
  {
    var s := dir + "/" + b;
    var k := |s| - |suffix|;
    if |suffix| <= |b| {
      assert s[k..] == b[|b| - |suffix|..];
    } else if k >= 0 {
      assert s[k..][|dir| - k] == '/';
    }
  }

  lemma TrimmedOnce(s: string, suffix: string)
    ensures TrimSuffix(s + suffix, suffix) == s
    ensures !EndsWith(s, suffix) ==> TrimSuffix(s, suffix) == s
  {
    assert (s + suffix)[|s|..] == suffix && (s + suffix)[..|s|] == s;
  }

  /** A pipeline file is identified by its directory's name and its own, with or without an extension. */
  lemma IdentityIs(dir: string, a: string, b: string, extension: string)
    requires '/' !in a && '/' !in b && !EndsWith(b, ".yaml") && !EndsWith(b, ".yml")
    requires extension in ["", ".yaml", ".yml"]
    ensures Identity(dir + "/" + a + "/" + b + extension) == [a, b]
  {
    hide SplitSlash, TrimSuffix, EndsWith;
    var outer := dir + "/" + a;
    var path := outer + "/" + b;
    SuffixOfLast(outer, b, ".yaml");
    SuffixOfLast(outer, b, ".yml");
    TrimmedOnce(path, ".yaml");
    TrimmedOnce(path, ".yml");
    if extension == ".yml" {
      YmlIsNotYaml(path);
    } else if extension == "" {
      assert path + extension == path;
    }
    SplitAt(dir, a);
    SplitAt(outer, b);
    NothingToSplit(a);
    NothingToSplit(b);
    var parts := SplitSlash(path);
    assert parts == SplitSlash(dir) + [a] + [b];
    assert parts[|parts| - 2..] == [a, b];
  }

  lemma YmlIsNotYaml(s: string)
    ensures TrimSuffix(s + ".yml", ".yaml") == s + ".yml"
  {
    var t := s + ".yml";
    assert |t| >= 5 ==> t[|t| - 5..][1] == '.';
  }

  // ---------------------------------------------------------------------
  // Which pipelines share a file
  // ---------------------------------------------------------------------

  predicate HasDashes(s: string) {
    exists i :: 0 <= i < |s| - 1 && s[i] == '-' && s[i + 1] == '-'
  }

  /**
   A path whose file name can be read in one way only: no backslash in its
   components, and no two dashes in a row before the last component, counting
   those that separate it.
   */
  ghost predicate Unambiguous(path: string) {
    var parts := Identity(path);
    && (forall i :: 0 <= i < |parts| ==> '\\' !in parts[i])
    && !HasDashes(if |parts| == 2 then parts[0] + "-" else parts[0])
  }

  lemma {:induction false} NoSlashInParts(s: string)
    ensures forall i :: 0 <= i < |SplitSlash(s)| ==> '/' !in SplitSlash(s)[i]
  {
    if s != "" {
      NoSlashInParts(s[1..]);
      var rest := SplitSlash(s[1..]);
      assert '/' !in rest[0];
      assert s[0] != '/' ==> '/' !in [s[0]] + rest[0];
    }
  }

  lemma {:induction false} SanitizeKeeps(s: string)
    requires '/' !in s && '\\' !in s
    ensures Sanitize(s) == s
  {
    if s != "" {
      assert s == [s[0]] + s[1..] && s[0] in s;
      assert forall c :: c in s[1..] ==> c in s;
      SanitizeKeeps(s[1..]);
    }
  }

  /** The name of the file of an unambiguous path. */
  lemma FileName(path: string)
    requires Unambiguous(path)
    ensures var parts := Identity(path);
            CheckpointPath(path) ==
            ".agents/checkpoints/checkpoint-" + if |parts| == 2 then parts[0] + "--" + parts[1] else parts[0]
  {
    hide SplitSlash, TrimSuffix, HasDashes, Sanitize;
    NoSlashInParts(TrimSuffix(TrimSuffix(path, ".yaml"), ".yml"));
    var parts := Identity(path);
    assert forall i :: 0 <= i < |parts| ==> '/' !in parts[i];
    SanitizeKeeps(if |parts| == 2 then parts[0] + "--" + parts[1] else parts[0]);
  }

  /** Two unambiguous paths share a checkpoint file if and only if their last two components agree. */
  lemma CheckpointFilesAreDistinct(p: string, q: string)
    requires Unambiguous(p) && Unambiguous(q)
    ensures CheckpointPath(p) == CheckpointPath(q) <==> Identity(p) == Identity(q)
  {
    hide CheckpointPath, Identity;
    FileName(p);
    FileName(q);
    var a, b := Identity(p), Identity(q);
    var prefix := ".agents/checkpoints/checkpoint-";
    var x := if |a| == 2 then a[0] + "--" + a[1] else a[0];
    var y := if |b| == 2 then b[0] + "--" + b[1] else b[0];
    if CheckpointPath(p) == CheckpointPath(q) {
      assert (prefix + x)[|prefix|..] == x && (prefix + y)[|prefix|..] == y;
      SameReading(a, b);
    }
  }

  lemma SameReading(a: seq<string>, b: seq<string>)
    requires 1 <= |a| <= 2 && 1 <= |b| <= 2
    requires !HasDashes(if |a| == 2 then a[0] + "-" else a[0]) && !HasDashes(if |b| == 2 then b[0] + "-" else b[0])
    requires (if |a| == 2 then a[0] + "--" + a[1] else a[0]) == (if |b| == 2 then b[0] + "--" + b[1] else b[0])
    ensures a == b
  {
    if |a| == 2 && |b| == 2 {
      NotShorter(a[0], a[1], b[0], b[1]);
      NotShorter(b[0], b[1], a[0], a[1]);
      var s := a[0] + "--" + a[1];
      assert a[0] == s[..|a[0]|] == b[0] && a[1] == s[|a[0]| + 2..] == b[1];
    } else if |a| == 2 {
      JoinHasDashes(a[0], a[1]);
    } else if |b| == 2 {
      JoinHasDashes(b[0], b[1]);
    }
  }

  lemma JoinHasDashes(a: string, b: string)
    ensures HasDashes(a + "--" + b)
  {
    var s := a + "--" + b;
    assert s[|a|] == '-' && s[|a| + 1] == '-';
  }

  lemma NotShorter(a: string, a': string, b: string, b': string)
    requires a + "--" + a' == b + "--" + b' && !HasDashes(b + "-")
    ensures |a| >= |b|
  {
    if |a| < |b| {
      var s := a + "--" + a';
      assert s[|a|] == '-' && s[|a| + 1] == '-';
      assert forall i :: 0 <= i < |b| + 1 ==> (b + "-")[i] == s[i];
    }
  }

  /** Different pipelines that share a file: dashes at the seam, dashes in a name, a backslash. */
  lemma CheckpointFilesCollide()
    ensures CheckpointPath("x-/y") == CheckpointPath("x/-y") && Identity("x-/y") == ["x-", "y"] && Identity("x/-y") == ["x", "-y"]
    ensures CheckpointPath("x--y") == CheckpointPath("x/y") && Identity("x--y") == ["x--y"] && Identity("x/y") == ["x", "y"]
    ensures CheckpointPath("x/y\\z") == CheckpointPath("x/y--z") && Identity("x/y\\z") == ["x", "y\\z"] && Identity("x/y--z") == ["x", "y--z"]
  {
    hide CheckpointPath, Identity;
    DashesAtTheSeam();
    DashesInAName();
    ABackslash();
  }

  lemma DashesAtTheSeam()
    ensures CheckpointPath("x-/y") == CheckpointPath("x/-y") && Identity("x-/y") == ["x-", "y"] && Identity("x/-y") == ["x", "-y"]
  {
    hide CheckpointPath, Identity, Sanitize;
    assert "x-" + "/" + "y" == "x-/y" && "x" + "/" + "-y" == "x/-y";
    assert "x-" + "--" + "y" == "x---y" == "x" + "--" + "-y";
    TwoParts("x-", "y");
    TwoParts("x", "-y");
  }

  lemma DashesInAName()
    ensures CheckpointPath("x--y") == CheckpointPath("x/y") && Identity("x--y") == ["x--y"] && Identity("x/y") == ["x", "y"]
  {
    hide SplitSlash, TrimSuffix, Sanitize;
    assert "x" + "/" + "y" == "x/y" && "x" + "--" + "y" == "x--y";
    TwoParts("x", "y");
    NoExtension("x--y");
    NothingToSplit("x--y");
  }

  lemma ABackslash()
    ensures CheckpointPath("x/y\\z") == CheckpointPath("x/y--z") && Identity("x/y\\z") == ["x", "y\\z"] && Identity("x/y--z") == ["x", "y--z"]
  {
    hide CheckpointPath, Identity, Sanitize;
    assert "x" + "/" + "y\\z" == "x/y\\z" && "x" + "/" + "y--z" == "x/y--z";
    assert "x--y" + "\\" + "z" == "x" + "--" + "y\\z" && "x--y" + "--" + "z" == "x--y--z" == "x" + "--" + "y--z";
    TwoParts("x", "y\\z");
    TwoParts("x", "y--z");
    BackslashToDashes("x--y", "z");
    SanitizeKeeps("x--y--z");
  }

  lemma NoExtension(s: string)
    requires 1 <= |s| <= 3 || (|s| > 3 && s[|s| - 4] != '.' && (|s| > 4 ==> s[|s| - 5] != '.'))
    ensures TrimSuffix(TrimSuffix(s, ".yaml"), ".yml") == s
  {
  }

  lemma TwoParts(a: string, b: string)
    requires '/' !in a && '/' !in b && |a| <= 2 && 1 <= |b| <= 4 && '.' !in a && '.' !in b
    ensures Identity(a + "/" + b) == [a, b]
    ensures CheckpointPath(a + "/" + b) == ".agents/checkpoints/checkpoint-" + Sanitize(a + "--" + b)
  {
    hide SplitSlash, TrimSuffix, Sanitize;
    var s := a + "/" + b;
    assert forall i :: 0 <= i < |s| ==> s[i] != '.';
    NoExtension(s);
    SplitAt(a, b);
    NothingToSplit(a);
    NothingToSplit(b);
  }

  lemma {:induction false} BackslashToDashes(a: string, b: string)
    requires '/' !in a && '\\' !in a && '/' !in b && '\\' !in b
    ensures Sanitize(a + "\\" + b) == a + "--" + b
  {
    var s := a + "\\" + b;
    if a == "" {
      assert s[1..] == b;
      SanitizeKeeps(b);
    } else {
      assert s[0] == a[0] && s[1..] == a[1..] + "\\" + b && a[0] in a;
      BackslashToDashes(a[1..], b);
    }
  }
}
