/**
 * The default-paper resolution of libpaper/paper.c: which configuration
 * file to read (systempapersizefile), what the locale suggests
 * (defaultpapername), and the chain systempapername walks: environment
 * first, then the first token of the configuration file, then the locale
 * or compiled-in name when the file exists but cannot be opened; the result
 * is finally respelled as the table spells it.
 *
 * The process environment, the file system and the locale are inputs here
 * (a `Host`), and the build-time constants are a `Build`.
 */
module Resolver {

  import opened Wrappers
  import opened Ascii
  import opened Papers

  /** A path that `stat` finds, as `fopen` then sees it. */
  datatype FileState =
    | Unopenable              // stat succeeds, fopen fails
    | Readable(lines: seq<string>) // the lines getline returns, without their '\n'

  /** The locale's paper size in whole millimetres (LC_PAPER). */
  datatype MmSize = MmSize(width: nat, height: nat)

  /**
   * What the library reads from its surroundings: the PAPERSIZE and
   * PAPERCONF variables, the files that exist (a path not in the map fails
   * `stat`), and the locale's paper size when the library is built with
   * LC_PAPER support.
   */
  datatype Host = Host(
    paperSizeVar: Option<string>,
    paperConfVar: Option<string>,
    files: map<string, FileState>,
    localePaper: Option<MmSize>)

  /**
   * The compiled-in constants: the configuration file path PAPERCONF
   * (returned by defaultpapersizefile) and the paper name PAPERSIZE.
   */
  datatype Build = Build(paperConf: string, paperSize: string)

  // ---------------------------------------------------------------------
  // The two environment variables and their swapped meanings

  /**
   * systempapersizefile: PAPERCONF now names the file; when it holds no '/'
   * it is taken to be an old-style paper name and PAPERSIZE is tried as the
   * path instead. The result is never NULL: it is a variable that holds a
   * '/' or else the compiled-in path.
   */
  function SystemPaperSizeFile(host: Host, build: Build): (path: string)
    ensures path == build.paperConf
         || (HasSlash(path) && (Some(path) == host.paperConfVar || Some(path) == host.paperSizeVar))
  {
    var paperconf :=
      if host.paperConfVar.Some? && !HasSlash(host.paperConfVar.value) then
        (if host.paperSizeVar.Some? && !HasSlash(host.paperSizeVar.value) then None
         else host.paperSizeVar)
      else host.paperConfVar;
    if paperconf.Some? then paperconf.value else build.paperConf
  }

  /** The three outcomes of systempapersizefile, case by case. */
  lemma PaperSizeFileCases(host: Host, build: Build)
    ensures host.paperConfVar.Some? && HasSlash(host.paperConfVar.value)
            ==> SystemPaperSizeFile(host, build) == host.paperConfVar.value
    ensures host.paperConfVar.Some? && !HasSlash(host.paperConfVar.value)
            && host.paperSizeVar.Some? && HasSlash(host.paperSizeVar.value)
            ==> SystemPaperSizeFile(host, build) == host.paperSizeVar.value
    ensures host.paperConfVar.None?
            || (!HasSlash(host.paperConfVar.value)
                && (host.paperSizeVar.None? || !HasSlash(host.paperSizeVar.value)))
            ==> SystemPaperSizeFile(host, build) == build.paperConf
  {
  }

  /**
   * The first step of systempapername: PAPERSIZE now names the paper; when
   * it holds a '/' it is taken to be an old-style path and PAPERCONF is
   * tried as the name instead. A name from the environment never holds a
   * '/'.
   */
  function EnvPaperName(host: Host): (name: Option<string>)
    ensures name.Some? ==> !HasSlash(name.value)
    ensures name.Some? ==> name == host.paperSizeVar || name == host.paperConfVar
    ensures host.paperSizeVar.Some? && !HasSlash(host.paperSizeVar.value) ==> name == host.paperSizeVar
    ensures name.None? <==>
              (host.paperSizeVar.None? ||
               (HasSlash(host.paperSizeVar.value)
                && (host.paperConfVar.None? || HasSlash(host.paperConfVar.value))))
  {
    if host.paperSizeVar.Some? && HasSlash(host.paperSizeVar.value) then
      (if host.paperConfVar.Some? && HasSlash(host.paperConfVar.value) then None
       else host.paperConfVar)
    else host.paperSizeVar
  }

  /**
   * Both conventions agree: with the new one (PAPERSIZE a name, PAPERCONF a
   * path) and with the old one (PAPERSIZE a path, PAPERCONF a name) the name
   * and the file path are read from the variable that holds each.
   */
  lemma ConventionsSwap(host: Host, build: Build)
    requires host.paperSizeVar.Some? && host.paperConfVar.Some?
    requires HasSlash(host.paperSizeVar.value) != HasSlash(host.paperConfVar.value)
    ensures HasSlash(host.paperConfVar.value) ==>
              EnvPaperName(host) == host.paperSizeVar
              && SystemPaperSizeFile(host, build) == host.paperConfVar.value
    ensures HasSlash(host.paperSizeVar.value) ==>
              EnvPaperName(host) == host.paperConfVar
              && SystemPaperSizeFile(host, build) == host.paperSizeVar.value
  {
  }

  /**
   * An old-style PAPERSIZE path on its own, with PAPERCONF unset, is neither
   * a name nor a path: systempapersizefile consults PAPERSIZE only after
   * PAPERCONF was found set, so the compiled-in file is read.
   */
  lemma OldStylePathAloneIsIgnored(host: Host, build: Build)
    requires host.paperConfVar.None?
    requires host.paperSizeVar.Some? && HasSlash(host.paperSizeVar.value)
    ensures EnvPaperName(host).None?
    ensures SystemPaperSizeFile(host, build) == build.paperConf
  {
  }

  // ---------------------------------------------------------------------
  // The configuration file

  /** The first position at or after i that is not isspace (or the end). */
  function SpaceEnd(s: string, i: nat): (k: nat)
    requires i <= |s|
    ensures i <= k <= |s|
    ensures forall j :: i <= j < k ==> IsSpace(s[j])
    ensures k < |s| ==> !IsSpace(s[k])
    decreases |s| - i
  {
    if i < |s| && IsSpace(s[i]) then SpaceEnd(s, i + 1) else i
  }

  /** A character that continues a token: neither the terminator nor isspace. */
  predicate IsTokenChar(c: char) {
    c != '\0' && !IsSpace(c)
  }

  /** The end of the run of token characters starting at i. */
  function TokenEnd(s: string, i: nat): (k: nat)
    requires i <= |s|
    ensures i <= k <= |s|
    ensures forall j :: i <= j < k ==> IsTokenChar(s[j])
    ensures k < |s| ==> !IsTokenChar(s[k])
    decreases |s| - i
  {
    if i < |s| && IsTokenChar(s[i]) then TokenEnd(s, i + 1) else i
  }

  /** A line whose first non-blank character is '#'. */
  predicate IsComment(line: string) {
    var p := SpaceEnd(line, 0);
    p < |line| && line[p] == '#'
  }

  /** The maximal run of token characters after the line's leading blanks. */
  function Token(line: string): string {
    var p := SpaceEnd(line, 0);
    line[p..TokenEnd(line, p)]
  }

  /**
   * The paper name the configuration file gives, reading from line n on:
   * the token of the first line that is not a comment, and none exactly
   * when every remaining line is a comment.
   */
  function ConfigNameFrom(lines: seq<string>, n: nat): (name: Option<string>)
    requires n <= |lines|
    ensures name.None? <==> forall j :: n <= j < |lines| ==> IsComment(lines[j])
    ensures name.Some? ==>
              exists i :: n <= i < |lines| && !IsComment(lines[i])
                          && (forall j :: n <= j < i ==> IsComment(lines[j]))
                          && name.value == Token(lines[i])
    decreases |lines| - n
  {
    if n == |lines| then None
    else if IsComment(lines[n]) then ConfigNameFrom(lines, n + 1)
    else Some(Token(lines[n]))
  }

  function ConfigName(lines: seq<string>): Option<string> {
    ConfigNameFrom(lines, 0)
  }

  /**
   * The getline loop of systempapername: skip comment lines; on the first
   * other line skip the leading blanks and copy the token that follows
   * (strndup), which is empty for a blank line.
   */
  method ScanConfigFile(lines: seq<string>) returns (papername: Option<string>)
    ensures papername == ConfigName(lines)
  {
    var n := 0;
    while n < |lines|
      invariant n <= |lines|
      invariant ConfigNameFrom(lines, n) == ConfigName(lines)
    {
      var buff := lines[n];
      var p := 0;
      while p < |buff| && IsSpace(buff[p])
        invariant p <= |buff|
        invariant forall j :: 0 <= j < p ==> IsSpace(buff[j])
      {
        p := p + 1;
      }
      assert p == SpaceEnd(buff, 0);
      if p < |buff| && buff[p] == '#' {
        assert IsComment(lines[n]);
        n := n + 1;
        continue;
      }
      var i := 0;
      while p + i < |buff| && IsTokenChar(buff[p + i])
        invariant p + i <= |buff|
        invariant forall j :: p <= j < p + i ==> IsTokenChar(buff[j])
      {
        i := i + 1;
      }
      assert p + i == TokenEnd(buff, p);
      assert ConfigNameFrom(lines, n) == Some(Token(buff));
      return Some(buff[p..p + i]);
    }
    return None;
  }

  // ---------------------------------------------------------------------
  // The locale and the compiled-in name

  /**
   * defaultpapername as a value: the first entry whose dimensions round to
   * the locale's millimetres, else the compiled-in PAPERSIZE.
   */
  function DefaultName(t: Table, locale: Option<MmSize>, build: Build): string {
    if locale.None? then build.paperSize
    else match FirstMatch(t, ByMillimetres(locale.value.width, locale.value.height))
      case Some(i) => t[i].name
      case None => build.paperSize
  }

  /**
   * defaultpapername: search the table in order for the locale's size in
   * millimetres; without a match, or without LC_PAPER support, the
   * compiled-in PAPERSIZE.
   */
  method DefaultPaperName(t: Table, locale: Option<MmSize>, build: Build) returns (name: string)
    requires t != []
    ensures name == DefaultName(t, locale, build)
    ensures locale.None? ==> name == build.paperSize
    ensures name == build.paperSize
            || exists i :: 0 <= i < |t| && name == t[i].name
                           && PtToMm(t[i].pswidth) == locale.value.width
                           && PtToMm(t[i].psheight) == locale.value.height
  {
    if locale.Some? {
      var pp := Search(t, ByMillimetres(locale.value.width, locale.value.height));
      if pp.Some? {
        return t[pp.value].name;
      }
    }
    return build.paperSize;
  }

  // ---------------------------------------------------------------------
  // systempapername

  /**
   * The name systempapername finds before respelling it: the environment
   * name; otherwise nothing when the configuration file does not exist, the
   * default name when it exists but cannot be opened, and the file's first
   * token (or nothing) when it can be read.
   */
  function RawPaperName(t: Table, host: Host, build: Build): Option<string> {
    match EnvPaperName(host)
    case Some(name) => Some(name)
    case None =>
      var path := SystemPaperSizeFile(host, build);
      if path !in host.files then None
      else match host.files[path]
        case Unopenable => Some(DefaultName(t, host.localePaper, build))
        case Readable(lines) => ConfigName(lines)
  }

  /**
   * The respelling of line 188: a name is replaced by the spelling of the
   * first entry that matches it ignoring case, which has the same length;
   * a name no entry matches is kept.
   */
  function Canonical(t: Table, s: string): (r: string)
    ensures |r| == |s| && EqualsIgnoreCase(r, s)
    ensures r == s || exists i :: 0 <= i < |t| && r == t[i].name
    ensures (exists i :: 0 <= i < |t| && EqualsIgnoreCase(t[i].name, s))
            ==> exists i :: 0 <= i < |t| && r == t[i].name
    ensures forall i :: 0 <= i < |t| && EqualsIgnoreCase(t[i].name, s)
                        && (forall j :: 0 <= j < i ==> !EqualsIgnoreCase(t[j].name, s))
                        ==> r == t[i].name
    ensures (forall i :: 0 <= i < |t| ==> !EqualsIgnoreCase(t[i].name, s)) ==> r == s
  {
    match FirstMatch(t, ByName(s))
    case Some(i) => t[i].name
    case None => s
  }

  function ResolvedPaperName(t: Table, host: Host, build: Build): Option<string> {
    match RawPaperName(t, host, build)
    case None => None
    case Some(s) => Some(Canonical(t, s))
  }

  /** strdup: a fresh NUL-terminated copy. */
  method StrDup(s: string) returns (buf: array<char>)
    ensures fresh(buf)
    ensures buf[..] == s + ['\0']
  {
    buf := new char[|s| + 1](i => if 0 <= i < |s| then s[i] else '\0');
  }

  /** strcpy into a buffer that has room for src and its terminator. */
  method StrCopy(dst: array<char>, src: string)
    requires |src| < dst.Length
    modifies dst
    ensures dst[..|src| + 1] == src + ['\0']
    ensures dst[|src| + 1..] == old(dst[|src| + 1..])
  {
    forall i | 0 <= i < |src| {
      dst[i] := src[i];
    }
    dst[|src|] := '\0';
  }

  /**
   * systempapername: resolve the name as RawPaperName describes, duplicate
   * it, and when the table knows it ignoring case overwrite the duplicate in
   * place with the table's spelling, which fits because it has the same
   * length.
   */
  method SystemPaperName(t: Table, host: Host, build: Build) returns (paperstr: Option<string>)
    requires t != []
    ensures paperstr == ResolvedPaperName(t, host, build)
  {
    var raw: Option<string>;
    var paperenv := EnvPaperName(host);
    if paperenv.Some? {
      raw := paperenv;
    } else {
      var paperconf := SystemPaperSizeFile(host, build);
      if paperconf !in host.files {
        return None;
      }
      match host.files[paperconf]
      case Readable(lines) =>
        raw := ScanConfigFile(lines);
      case Unopenable =>
        var name := DefaultPaperName(t, host.localePaper, build);
        raw := Some(name);
    }
    if raw.None? {
      return None;
    }
    var buf := StrDup(raw.value);
    assert buf[..|raw.value|] == raw.value;
    var pp := PaperInfo(t, raw.value);
    if pp.Some? {
      StrCopy(buf, t[pp.value].name);
      assert buf[..|raw.value|] == t[pp.value].name;
    }
    paperstr := Some(buf[..|raw.value|]);
  }

  // ---------------------------------------------------------------------
  // Properties of the resolution

  /**
   * A name in the environment decides the result whatever the files and the
   * locale say.
   */
  lemma EnvironmentTakesPrecedence(t: Table, host: Host, other: Host, build: Build)
    requires EnvPaperName(host).Some?
    requires other.paperSizeVar == host.paperSizeVar && other.paperConfVar == host.paperConfVar
    ensures ResolvedPaperName(t, host, build) == Some(Canonical(t, EnvPaperName(host).value))
    ensures ResolvedPaperName(t, other, build) == ResolvedPaperName(t, host, build)
  {
  }

  /**
   * Without an environment name, a configuration path that does not exist
   * gives NULL, and one that exists but cannot be opened gives the default
   * name, respelled.
   */
  lemma FileAccessOutcomes(t: Table, host: Host, build: Build)
    requires EnvPaperName(host).None?
    ensures SystemPaperSizeFile(host, build) !in host.files
            ==> ResolvedPaperName(t, host, build).None?
    ensures SystemPaperSizeFile(host, build) in host.files
            && host.files[SystemPaperSizeFile(host, build)].Unopenable?
            ==> ResolvedPaperName(t, host, build)
                == Some(Canonical(t, DefaultName(t, host.localePaper, build)))
  {
  }

  /**
   * A readable configuration file whose lines are all comments gives NULL
   * (the chain does not go on to the locale); otherwise the result is the
   * first non-comment line's token, respelled.
   */
  lemma ReadableFileOutcomes(t: Table, host: Host, build: Build, lines: seq<string>)
    requires EnvPaperName(host).None?
    requires SystemPaperSizeFile(host, build) in host.files
    requires host.files[SystemPaperSizeFile(host, build)] == Readable(lines)
    ensures (forall j :: 0 <= j < |lines| ==> IsComment(lines[j]))
            <==> ResolvedPaperName(t, host, build).None?
    ensures forall i :: 0 <= i < |lines| && !IsComment(lines[i])
                        && (forall j :: 0 <= j < i ==> IsComment(lines[j]))
                        ==> ResolvedPaperName(t, host, build) == Some(Canonical(t, Token(lines[i])))
  {
    forall i | 0 <= i < |lines| && !IsComment(lines[i]) && (forall j :: 0 <= j < i ==> IsComment(lines[j]))
      ensures ConfigName(lines) == Some(Token(lines[i]))
    {
      var k :| 0 <= k < |lines| && !IsComment(lines[k])
               && (forall j :: 0 <= j < k ==> IsComment(lines[j]))
               && ConfigName(lines).value == Token(lines[k]);
      assert k == i;
    }
  }

  /** Respelling twice is respelling once. */
  lemma CanonicalIdempotent(t: Table, s: string)
    ensures Canonical(t, Canonical(t, s)) == Canonical(t, s)
  {
    match FirstMatch(t, ByName(s))
    case None =>
    case Some(i) =>
      var r := t[i].name;
      IgnoreCaseEquivalence(r, r, r);
      forall j | 0 <= j < i
        ensures !Matches(t[j], ByName(r))
      {
        IgnoreCaseEquivalence(t[j].name, r, s);
      }
      FirstMatchAt(t, ByName(r), i);
  }

  /**
   * Whatever systempapername returns is already in the table's spelling:
   * respelling it changes nothing, and it has the length of the name it was
   * resolved from.
   */
  lemma ResolvedNameIsCanonical(t: Table, host: Host, build: Build)
    requires ResolvedPaperName(t, host, build).Some?
    ensures Canonical(t, ResolvedPaperName(t, host, build).value) == ResolvedPaperName(t, host, build).value
    ensures |ResolvedPaperName(t, host, build).value| == |RawPaperName(t, host, build).value|
  {
    CanonicalIdempotent(t, RawPaperName(t, host, build).value);
  }
}
