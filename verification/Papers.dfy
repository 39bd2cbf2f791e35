/**
 * The paper registry of libpaper/paper.c: a fixed table of
 * { name, pswidth, psheight } entries in build order, walked by cursors
 * (paperfirst, papernext, paperprev, paperlast) and searched front to back
 * (paperinfo by name, paperwithsize by PostScript dimensions, and the
 * locale search of defaultpapername by millimetre dimensions).
 *
 * The C array ends in a sentinel entry whose name is NULL; here the table is
 * the sequence of the real entries only, a `struct paper*` into it is an
 * index, and a NULL result is `None`.
 */
module Papers {

  import opened Wrappers
  import opened Ascii

  /** One table entry; dimensions are in PostScript points. */
  datatype Paper = Paper(name: string, pswidth: real, psheight: real)

  /** The entries of `papers[]`, sentinel excluded. */
  type Table = seq<Paper>

  /** A pointer to a table entry, as its index. */
  type Cursor = nat

  /** paperinit: the library needs no set-up; always 0. */
  method PaperInit() returns (status: int)
    ensures status == 0
  {
    status := 0;
  }

  /** paperdone: nothing to release; always 0. */
  method PaperDone() returns (status: int)
    ensures status == 0
  {
    status := 0;
  }

  // ---------------------------------------------------------------------
  // Cursors

  /** paperprev: NULL at the start of the table, otherwise the entry before. */
  function Prev(t: Table, c: Cursor): (r: Option<Cursor>)
    requires c < |t|
    ensures r.None? <==> c == 0
    ensures r.Some? ==> r.value == c - 1
  {
    if c == 0 then None else Some(c - 1)
  }

  /** paperfirst: the start of the table, the one entry with no predecessor. */
  function First(t: Table): (c: Cursor)
    requires t != []
    ensures c < |t| && Prev(t, c) == None
  {
    0
  }

  /**
   * papernext: the following entry, or NULL when the following slot is the
   * sentinel, i.e. exactly at the last entry.
   */
  function Next(t: Table, c: Cursor): (r: Option<Cursor>)
    requires c < |t|
    ensures r.None? <==> c == |t| - 1
    ensures r.Some? ==> r.value == c + 1 && r.value < |t|
  {
    if c + 1 < |t| then Some(c + 1) else None
  }

  /** papernext and paperprev undo each other wherever they are not NULL. */
  lemma NextPrevInverse(t: Table, c: Cursor)
    requires c < |t|
    ensures Next(t, c).Some? ==> Prev(t, Next(t, c).value) == Some(c)
    ensures Prev(t, c).Some? ==> Next(t, Prev(t, c).value) == Some(c)
  {
  }

  /** The cursors visited by `for (p = c; p; p = papernext(p))`. */
  function Walk(t: Table, c: Cursor): seq<Cursor>
    requires c < |t|
    decreases |t| - c
  {
    [c] + match Next(t, c) case None => [] case Some(n) => Walk(t, n)
  }

  /** From cursor c, the walk visits c, c+1, ..., the last entry, each once. */
  lemma {:induction false} WalkFrom(t: Table, c: Cursor)
    requires c < |t|
    ensures |Walk(t, c)| == |t| - c
    ensures forall k :: 0 <= k < |Walk(t, c)| ==> Walk(t, c)[k] == c + k
    decreases |t| - c
  {
    match Next(t, c)
    case None =>
    case Some(n) =>
      WalkFrom(t, n);
  }

  /**
   * Walking from paperfirst with papernext until NULL visits every entry of
   * the table exactly once, in table order.
   */
  lemma WalkVisitsEveryEntry(t: Table)
    requires t != []
    ensures |Walk(t, First(t))| == |t|
    ensures forall k :: 0 <= k < |t| ==> Walk(t, First(t))[k] == k
  {
    WalkFrom(t, First(t));
  }

  /**
   * paperlast: walks the raw array up to the sentinel, remembering the
   * entry before it. The remembered pointer is a function-static that starts
   * NULL; on a constant table every call recomputes the same value, so it is
   * a local here.
   */
  method PaperLast(t: Table) returns (lastpaper: Option<Cursor>)
    ensures lastpaper.None? <==> t == []
    ensures lastpaper.Some? ==> lastpaper.value < |t| && Next(t, lastpaper.value) == None
  {
    lastpaper := None;
    var next: Cursor := 0;
    while next < |t|
      invariant next <= |t|
      invariant next == 0 ==> lastpaper.None?
      invariant next > 0 ==> lastpaper == Some(next - 1)
    {
      lastpaper, next := Some(next), next + 1;
    }
  }

  // ---------------------------------------------------------------------
  // Front-to-back searches

  /** What a search compares an entry against. */
  datatype Query =
    | ByName(name: string)                 // paperinfo: strcasecmp
    | BySize(pswidth: real, psheight: real) // paperwithsize: exact ==
    | ByMillimetres(width: int, height: int) // defaultpapername: PT_TO_MM

  /**
   * PT_TO_MM: points to whole millimetres, rounded half up,
   * (v * 2.54 * 10 / 72) + 0.5 computed exactly and converted to unsigned
   * int, which truncates toward zero: a value in (-1, 0) becomes 0. Below -1
   * the conversion is undefined in C; the model gives 0 there too.
   */
  function PtToMm(v: real): (mm: nat)
    ensures v * 254.0 / 720.0 + 0.5 >= 0.0 ==>
              mm as real <= v * 254.0 / 720.0 + 0.5 < mm as real + 1.0
    ensures -1.0 < v * 254.0 / 720.0 + 0.5 < 0.0 ==> mm == 0
  {
    var x := v * 254.0 / 720.0 + 0.5;
    if x < 0.0 then 0 else x.Floor
  }

  predicate Matches(p: Paper, q: Query) {
    match q
    case ByName(name) => EqualsIgnoreCase(p.name, name)
    case BySize(w, h) => p.pswidth == w && p.psheight == h
    case ByMillimetres(w, h) => PtToMm(p.pswidth) == w && PtToMm(p.psheight) == h
  }

  /**
   * The first entry at or after i that matches q: it matches, no entry
   * between i and it matches, and there is none exactly when no entry from i
   * on matches.
   */
  function FirstMatchFrom(t: Table, q: Query, i: nat): (r: Option<Cursor>)
    requires i <= |t|
    ensures r.Some? ==> i <= r.value < |t| && Matches(t[r.value], q)
    ensures r.Some? ==> forall j :: i <= j < r.value ==> !Matches(t[j], q)
    ensures r.None? <==> forall j :: i <= j < |t| ==> !Matches(t[j], q)
    decreases |t| - i
  {
    if i == |t| then None
    else if Matches(t[i], q) then Some(i)
    else FirstMatchFrom(t, q, i + 1)
  }

  function FirstMatch(t: Table, q: Query): Option<Cursor> {
    FirstMatchFrom(t, q, 0)
  }

  /** An entry that matches while none before it does is the first match. */
  lemma FirstMatchAt(t: Table, q: Query, i: Cursor)
    requires i < |t| && Matches(t[i], q)
    requires forall j :: 0 <= j < i ==> !Matches(t[j], q)
    ensures FirstMatch(t, q) == Some(i)
  {
  }

  /** The loop `for (pp = paperfirst(); pp; pp = papernext(pp)) if (match) return pp; return 0;`. */
  method Search(t: Table, q: Query) returns (pp: Option<Cursor>)
    requires t != []
    ensures pp == FirstMatch(t, q)
  {
    pp := Some(First(t));
    while pp.Some?
      invariant pp.Some? ==> pp.value < |t|
      invariant forall j :: 0 <= j < (if pp.Some? then pp.value else |t|) ==> !Matches(t[j], q)
      decreases if pp.Some? then |t| - pp.value else 0
    {
      if Matches(t[pp.value], q) {
        return;
      }
      pp := Next(t, pp.value);
    }
  }

  /**
   * paperinfo: the lowest-index entry whose name equals `paper` ignoring
   * ASCII case; NULL exactly when no entry does.
   */
  method PaperInfo(t: Table, paper: string) returns (pp: Option<Cursor>)
    requires t != []
    ensures pp == FirstMatch(t, ByName(paper))
    ensures pp.Some? ==> pp.value < |t| && EqualsIgnoreCase(t[pp.value].name, paper)
    ensures pp.Some? ==> forall j :: 0 <= j < pp.value ==> !EqualsIgnoreCase(t[j].name, paper)
    ensures pp.None? <==> forall j :: 0 <= j < |t| ==> !EqualsIgnoreCase(t[j].name, paper)
  {
    pp := Search(t, ByName(paper));
  }

  /**
   * paperwithsize: the lowest-index entry whose dimensions are exactly
   * (pswidth, psheight); NULL exactly when no entry has both.
   */
  method PaperWithSize(t: Table, pswidth: real, psheight: real) returns (pp: Option<Cursor>)
    requires t != []
    ensures pp == FirstMatch(t, BySize(pswidth, psheight))
    ensures pp.Some? ==> pp.value < |t| && t[pp.value].pswidth == pswidth && t[pp.value].psheight == psheight
    ensures pp.None? <==> forall j :: 0 <= j < |t| ==> !(t[j].pswidth == pswidth && t[j].psheight == psheight)
  {
    pp := Search(t, BySize(pswidth, psheight));
  }

  /** No two entries share a name ignoring case. */
  predicate UniqueNames(t: Table) {
    forall i, j :: 0 <= i < j < |t| ==> !EqualsIgnoreCase(t[i].name, t[j].name)
  }

  /**
   * Every entry is found by every spelling of its name: the search succeeds
   * with a name equal to the query ignoring case, and on a table without
   * case-insensitive duplicates it finds that very entry.
   */
  lemma NameLookupFindsEntry(t: Table, i: Cursor, spelling: string)
    requires i < |t| && EqualsIgnoreCase(t[i].name, spelling)
    ensures FirstMatch(t, ByName(spelling)).Some?
    ensures FirstMatch(t, ByName(spelling)).value <= i
    ensures UniqueNames(t) ==> FirstMatch(t, ByName(spelling)) == Some(i)
  {
    var j := FirstMatch(t, ByName(spelling)).value;
    if UniqueNames(t) && j < i {
      IgnoreCaseEquivalence(t[j].name, spelling, t[i].name);
      IgnoreCaseEquivalence(t[i].name, spelling, spelling);
      assert false;
    }
  }
}
