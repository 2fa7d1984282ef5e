/** Telling the shim's own hook commands from the user's (`adapter-claude/src/install.rs`). */
module HookCommand {
  import opened Protocol
  import opened Text

  const SHIM_BINARY_NAME := "bowerbird-shim"

  function LastSlash(path: string): (r: Option<nat>)
    ensures r.Some? ==> r.value < |path| && path[r.value] == '/' && '/' !in path[r.value + 1..]
    ensures r.None? ==> '/' !in path
  {
    if path == "" then None
    else if path[|path| - 1] == '/' then Some(|path| - 1)
    else
      var init := path[..|path| - 1];
      assert path == init + [path[|path| - 1]];
      match LastSlash(init)
      case None => None
      case Some(i) =>
        assert path[i + 1..] == init[i + 1..] + [path[|path| - 1]];
        Some(i)
  }

  /** `Path::file_name`: the last component, past trailing slashes and dots; none when it is `..`. */
  function FileName(path: string): Option<string>
    decreases |path|
  {
    var slash := LastSlash(path);
    var segment := if slash.Some? then path[slash.value + 1..] else path;
    if segment == ".." then None
    else if segment != "" && segment != "." then Some(segment)
    else if slash.Some? then FileName(path[..slash.value])
    else None
  }

  predicate IsBowerbirdCommand(cmd: string) {
    var first := FirstToken(cmd);
    first == SHIM_BINARY_NAME || FileName(first) == Some(SHIM_BINARY_NAME)
  }

  /** Slashes, each with or without a single dot after it: what may follow the last name of a path. */
  function DotTail(dots: seq<bool>): string {
    if dots == [] then "" else DotTail(dots[..|dots| - 1]) + Slash(dots[|dots| - 1])
  }

  function Slash(dot: bool): string {
    if dot then "/." else "/"
  }

  /** What may stand before a path's last name. */
  predicate IsDirectory(dir: string) {
    dir == "" || dir[|dir| - 1] == '/'
  }

  predicate IsName(s: string) {
    s != "" && s != "." && s != ".." && '/' !in s
  }

  lemma {:induction false} LastSlashOf(dir: string, segment: string)
    requires '/' !in segment && IsDirectory(dir)
    ensures LastSlash(dir + segment) == if dir == "" then None else Some(|dir| - 1)
  {
    var path := dir + segment;
    if segment == "" {
      assert path == dir;
    } else {
      assert path[|path| - 1] == segment[|segment| - 1];
      assert path[..|path| - 1] == dir + segment[..|segment| - 1];
      LastSlashOf(dir, segment[..|segment| - 1]);
    }
  }

  /** One component from the right. */
  lemma FileNameStep(upTo: string, segment: string)
    requires '/' !in segment && IsDirectory(upTo)
    ensures FileName(upTo + segment) ==
      if segment == ".." then None
      else if segment != "" && segment != "." then Some(segment)
      else if upTo == "" then None
      else FileName(upTo[..|upTo| - 1])
  {
    LastSlashOf(upTo, segment);
    var path := upTo + segment;
    assert path[|upTo|..] == segment;
    if upTo != "" {
      assert path[..|upTo| - 1] == upTo[..|upTo| - 1];
    }
  }

  lemma OneMoreIgnored(base: string, dot: bool)
    ensures FileName(base + Slash(dot)) == FileName(base)
  {
    FileNameStep(base + "/", if dot then "." else "");
    assert (base + "/")[..|base|] == base;
    assert base + Slash(dot) == base + "/" + if dot then "." else "";
  }

  /** Trailing slashes and single dots never change the file name. */
  lemma {:induction false} DotTailIgnored(base: string, dots: seq<bool>)
    ensures FileName(base + DotTail(dots)) == FileName(base)
  {
    if dots == [] {
      assert base + "" == base;
    } else {
      var init, last := dots[..|dots| - 1], Slash(dots[|dots| - 1]);
      DotTailIgnored(base, init);
      OneMoreIgnored(base + DotTail(init), dots[|dots| - 1]);
      Regrouped(base, DotTail(init), last);
    }
  }

  lemma Regrouped(a: string, b: string, c: string)
    ensures a + b + c == a + (b + c)
  {
  }

  /** A path with a file name ends in it, or in a slash after a path with the same file name. */
  lemma PeelPath(upTo: string, segment: string, name: string)
    requires '/' !in segment && IsDirectory(upTo) && FileName(upTo + segment) == Some(name)
    ensures segment != "" && segment != "." ==> IsName(name) && segment == name
    ensures segment == "" || segment == "." ==>
      upTo != "" && FileName(upTo[..|upTo| - 1]) == Some(name) && upTo + segment == upTo[..|upTo| - 1] + Slash(segment == ".")
  {
    FileNameStep(upTo, segment);
    if upTo != "" && (segment == "" || segment == ".") { EndsInSlash(upTo, segment); }
  }

  lemma EndsInSlash(upTo: string, segment: string)
    requires upTo != "" && IsDirectory(upTo) && (segment == "" || segment == ".")
    ensures upTo + segment == upTo[..|upTo| - 1] + Slash(segment == ".")
  {
    assert upTo == upTo[..|upTo| - 1] + "/";
  }

  lemma {:induction false} FileNameParts(path: string, name: string) returns (dir: string, dots: seq<bool>)
    requires FileName(path) == Some(name)
    ensures IsDirectory(dir) && IsName(name) && path == dir + name + DotTail(dots)
    decreases |path|
  {
    var upTo, segment := SplitLast(path);
    PeelPath(upTo, segment, name);
    if segment != "" && segment != "." {
      dir, dots := upTo, [];
    } else {
      var dot := segment == ".";
      dir, dots := FileNameParts(upTo[..|upTo| - 1], name);
      assert (dots + [dot])[..|dots|] == dots;
      Regrouped(dir + name, DotTail(dots), Slash(dot));
      dots := dots + [dot];
    }
  }

  lemma SplitLast(path: string) returns (upTo: string, segment: string)
    ensures path == upTo + segment && IsDirectory(upTo) && '/' !in segment
  {
    var slash := LastSlash(path);
    var from := if slash.Some? then slash.value + 1 else 0;
    upTo, segment := path[..from], path[from..];
  }

  /** A path's file name is its last name, up to slashes and single dots after it. */
  lemma FileNameIff(path: string, name: string)
    ensures FileName(path) == Some(name) <==>
      exists dir, dots :: IsDirectory(dir) && IsName(name) && path == dir + name + DotTail(dots)
  {
    if FileName(path) == Some(name) {
      var dir, dots := FileNameParts(path, name);
      assert path == dir + name + DotTail(dots);
    }
    forall dir, dots | IsDirectory(dir) && IsName(name) && path == dir + name + DotTail(dots)
      ensures FileName(path) == Some(name)
    {
      FileNameStep(dir, name);
      DotTailIgnored(dir + name, dots);
    }
  }

  /** A command is the shim's exactly when its first word is a path whose last name is the shim's. So the
      name elsewhere in the command, or inside a longer name, does not count. */
  lemma CommandIff(lead: string, word: string, rest: string)
    requires IsBlank(lead) && IsWord(word) && word != "" && (rest == "" || IsWhiteSpace(rest[0]))
    ensures IsBowerbirdCommand(lead + word + rest) <==>
      exists dir, dots :: IsDirectory(dir) && word == dir + SHIM_BINARY_NAME + DotTail(dots)
  {
    FirstTokenHere(lead, word, rest);
    FileNameIff(word, SHIM_BINARY_NAME);
    ShimIsName();
    if word == SHIM_BINARY_NAME {
      assert IsDirectory("") && word == "" + SHIM_BINARY_NAME + DotTail([]);
    }
  }

  lemma ShimIsName()
    ensures IsName(SHIM_BINARY_NAME) && IsWord(SHIM_BINARY_NAME)
  {
  }

  /** The command the installer writes is recognised by the uninstaller. */
  function OurCommand(kind: string): string {
    SHIM_BINARY_NAME + " --hook-kind " + kind
  }

  lemma OurCommandIsBowerbird(kind: string)
    ensures IsBowerbirdCommand(OurCommand(kind))
  {
    ShimIsName();
    var rest := " --hook-kind " + kind;
    assert OurCommand(kind) == "" + SHIM_BINARY_NAME + rest;
    FirstTokenHere("", SHIM_BINARY_NAME, rest);
  }

  /** Read as words, the command runs the shim and names its own hook kind, and says nothing else. */
  lemma OurCommandNamesItsKind(kind: string)
    requires IsWord(kind) && kind != ""
    ensures var first := OurCommand(kind);
      var second := AfterWord(first);
      var third := AfterWord(second);
      && FirstToken(first) == "bowerbird-shim" && FirstToken(second) == "--hook-kind" && FirstToken(third) == kind
      && AfterWord(third) == ""
  {
    ShimIsName();
    var rest := " --hook-kind " + kind;
    assert OurCommand(kind) == "" + SHIM_BINARY_NAME + rest;
    FirstTokenHere("", SHIM_BINARY_NAME, rest);
    AfterWordHere("", SHIM_BINARY_NAME, rest);
    SecondWord(kind);
    FirstTokenHere(" ", kind, "");
    AfterWordHere(" ", kind, "");
    assert " " + kind + "" == " " + kind;
  }

  lemma SecondWord(kind: string)
    ensures FirstToken(" --hook-kind " + kind) == "--hook-kind" && AfterWord(" --hook-kind " + kind) == " " + kind
  {
    var flag, rest := "--hook-kind", " " + kind;
    assert IsWord(flag);
    assert " --hook-kind " + kind == " " + flag + rest;
    FirstTokenHere(" ", flag, rest);
    AfterWordHere(" ", flag, rest);
  }
}
