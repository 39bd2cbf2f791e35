# libpaper: the paper table and the system paper name, in Dafny

This project models the original libpaper library (`libpaper/paper.c`). The
library has two parts:

- **The paper registry.** This is a fixed table of `{ name, pswidth, psheight }`
  entries, kept in build order and closed by a sentinel. It is walked with
  cursors (`paperfirst`, `papernext`, `paperprev`, `paperlast`). It is searched
  front to back by name, ignoring ASCII case (`paperinfo`), and by exact
  PostScript dimensions (`paperwithsize`).
- **The system paper name** (`systempapername`). The name comes from the
  environment. Failing that, it comes from a configuration file, whose path
  `systempapersizefile` picks. If that file does not exist, the result is
  NULL. If it exists but cannot be opened, the name comes from the locale or
  from the compiled-in name (`defaultpapername`). If it can be read, the name
  is the first token of its first non-comment line, or NULL when every line
  is a comment. The chosen name is then respelled the way the table spells
  it.

The Dafny modules:

- `Wrappers` holds `Option`. `None` stands for a NULL pointer.
- `Ascii` holds the C-locale primitives the library calls: `isspace`, the case
  folding of `strcasecmp`, and `strchr(s, '/')`.
- `Papers` holds the table and its operations:
  - The table is `seq<Paper>` without the sentinel. A `struct paper*` is an
    index, of type `Cursor`.
  - The accessors `papername`, `paperpswidth` and `paperpsheight`
    (libpaper/paper.c:49-62) are the fields of the `Paper` datatype.
  - The three search loops of the C file walk the table in the same way.
    Those loops are `paperinfo`, `paperwithsize`, and the locale search in
    `defaultpapername`. In Dafny they share one method, `Search`, which takes
    a `Query`. Its specification is `FirstMatchFrom`.
- `Resolver` holds the resolution chain:
  - The process environment, the file system and the locale are one input
    value, `Host`. A path missing from `Host.files` is a path that `stat`
    cannot find. `Unopenable` is a path that `stat` finds and `fopen` cannot
    open.
  - The build-time constants are `Build`. `Build.paperConf` is what
    `defaultpapersizefile` returns (libpaper/paper.c:89-91). `Build.paperSize`
    is the compiled-in paper name.
  - `systempapername` is the method `SystemPaperName`. It follows the C
    branches one by one. Its result equals the function `ResolvedPaperName`,
    and the lemmas about the chain are stated over that function.

The resolution chain has these edge cases:

- A configuration file that cannot be found gives NULL. So does a file whose
  lines are all comments. Neither case goes on to a later source.
- The locale is consulted only when the configuration file exists but cannot
  be opened.
- The compiled-in name is not required to be in the table.

The search operations require a non-empty table. `paperfirst` returns the
first array slot. On a table with only the sentinel, that slot is the sentinel
itself, and `paperinfo` would then call `strcasecmp` on its NULL name.

The model states this behaviour of the code as written, in
`OldStylePathAloneIsIgnored`. An old-style `PAPERSIZE` holding a file path,
with `PAPERCONF` unset, is not used at all: the compiled-in configuration file
is read.

## Model

| member | source | states |
|---|---|---|
| `Papers.PaperInit` | libpaper/paper.c:41-43 | always returns 0; takes and changes nothing |
| `Papers.PaperDone` | libpaper/paper.c:45-47 | always returns 0; takes and changes nothing |
| `Papers.Prev` | libpaper/paper.c:84-87 | NULL exactly at the first entry; otherwise the entry right before |
| `Papers.First` | libpaper/paper.c:64-66 | an entry of the table, the one with no predecessor |
| `Papers.Next` | libpaper/paper.c:79-82 | NULL exactly at the last entry; otherwise the entry right after |
| `Papers.NextPrevInverse` | libpaper/paper.c:79-87 | `paperprev(papernext(p)) == p` whenever `papernext(p)` is not NULL, and `papernext(paperprev(p)) == p` whenever `paperprev(p)` is not NULL |
| `Papers.WalkFrom` | libpaper/paper.c:79-82 | following `papernext` from cursor c until NULL visits c, c+1, … up to the last entry, each once |
| `Papers.WalkVisitsEveryEntry` | libpaper/paper.c:64-82 | the walk from `paperfirst` to NULL visits every table entry exactly once, in table order |
| `Papers.PaperLast` | libpaper/paper.c:68-77 | NULL exactly for an empty table; otherwise the entry whose `papernext` is NULL |
| `Papers.PtToMm` | libpaper/paper.c:116 | points to whole millimetres rounded half up, as an unsigned value: when x = v·25.4/72 + 1/2 is not negative the result is the integer r with r <= x < r + 1; when x is in (-1, 0) the conversion truncates toward zero and gives 0 |
| `Papers.FirstMatchFrom` | libpaper/paper.c:196-202 | the result matches the query and no entry before it (from the start index) matches; NULL exactly when no entry matches |
| `Papers.Search` | libpaper/paper.c:196-202 | the cursor loop `for (pp = paperfirst(); pp; pp = papernext(pp))` returns the first matching entry, or NULL |
| `Papers.PaperInfo` | libpaper/paper.c:192-203 | the lowest-index entry whose name equals the query under `strcasecmp`; NULL exactly when no name does |
| `Papers.PaperWithSize` | libpaper/paper.c:205-217 | the lowest-index entry with exactly equal width and height; NULL exactly when no entry has both |
| `Papers.NameLookupFindsEntry` | libpaper/paper.c:192-203 | every capitalisation of an entry's name finds that entry or an earlier one with an equal name; with case-insensitively unique names, that very entry |
| `Resolver.SystemPaperSizeFile` | libpaper/paper.c:93-108 | never NULL: either the compiled-in path, or one of the two variables that holds a '/' |
| `Resolver.PaperSizeFileCases` | libpaper/paper.c:93-108 | PAPERCONF if it is set and holds '/'; else PAPERSIZE if PAPERCONF is set without '/' and PAPERSIZE holds '/'; else the compiled-in path |
| `Resolver.EnvPaperName` | libpaper/paper.c:138-149 | PAPERSIZE if it is set without '/'; otherwise PAPERCONF if PAPERSIZE holds '/' and PAPERCONF is set without '/'; a name from the environment never holds '/' |
| `Resolver.ConventionsSwap` | libpaper/paper.c:93-149 | under both the new and the old meaning of the two variables, the name comes from the variable without '/' and the file path from the one with '/' |
| `Resolver.OldStylePathAloneIsIgnored` | libpaper/paper.c:101-149 | a PAPERSIZE path with PAPERCONF unset gives no environment name, and the compiled-in file is read |
| `Resolver.SpaceEnd` | libpaper/paper.c:171-172 | the end of the maximal run of `isspace` characters from a position |
| `Resolver.TokenEnd` | libpaper/paper.c:175-176 | the end of the maximal run of characters that are neither NUL nor `isspace` |
| `Resolver.ConfigNameFrom` | libpaper/paper.c:167-178 | the token of the first line whose first non-blank character is not '#'; none exactly when every line is a comment |
| `Resolver.ScanConfigFile` | libpaper/paper.c:164-182 | the `getline` loop with its blank-skipping and token loops computes the configuration file's name, which is empty for a blank line |
| `Resolver.DefaultPaperName` | libpaper/paper.c:110-133 | the first entry whose rounded millimetre size equals the locale's, else the compiled-in PAPERSIZE; always PAPERSIZE without LC_PAPER support |
| `Resolver.Canonical` | libpaper/paper.c:187-189 | the result equals the name ignoring case and has the same length; when an entry matches, it is the spelling of the first matching entry (the one `paperinfo` returns); otherwise it is the name unchanged |
| `Resolver.StrDup` | libpaper/paper.c:152 | a fresh buffer holding the name and its terminator |
| `Resolver.StrCopy` | libpaper/paper.c:188 | copying into a buffer with room for the source and its NUL; the rest of the buffer is unchanged |
| `Resolver.SystemPaperName` | libpaper/paper.c:135-190 | the method's branches, with the in-place `strcpy` of the table spelling, compute the resolution chain |
| `Resolver.EnvironmentTakesPrecedence` | libpaper/paper.c:145-152 | a name from the environment decides the result, respelled, whatever the files and the locale are |
| `Resolver.FileAccessOutcomes` | libpaper/paper.c:156-184 | with no environment name: a configuration path that `stat` cannot find gives NULL; one that cannot be opened gives `defaultpapername()`, respelled |
| `Resolver.ReadableFileOutcomes` | libpaper/paper.c:162-189 | with a readable file: NULL exactly when every line is a comment; otherwise the first non-comment line's token, respelled |
| `Resolver.CanonicalIdempotent` | libpaper/paper.c:187-189 | respelling a respelled name changes nothing |
| `Resolver.ResolvedNameIsCanonical` | libpaper/paper.c:187-189 | the returned name is already in the table's spelling and has the length of the name it replaced, so the in-place copy fits |

## Left out

- Table contents: the entries come from `paperspecs.h`, which is not part of this model. The table is an arbitrary input sequence.
- Floating point: widths and heights are exact `real`s. `paperwithsize` compares them exactly. `PT_TO_MM` computes x = v * 254 / 720 + 1/2 with no IEEE rounding and truncates it toward zero, so a value in (-1, 0) gives 0. The unsigned cast is undefined in C for x <= -1 and for x >= 2^32. The model gives 0 for x <= -1 and does not wrap large values.
- Operating-system calls: `getenv`, `stat`, `fopen`, `getline`, `fclose`, `free` and `nl_langinfo` are not modelled as calls. They become the input fields of `Host`. A file does not change between the two `stat` calls at libpaper/paper.c:158 and 162.
- Dead code: the check at libpaper/paper.c:160 cannot fire, because `systempapersizefile` never returns NULL.
- Memory ownership: `strdup`/`strndup` leave ownership of the returned buffer with the caller, and that is not tracked. Running out of memory is not modelled.
- Strings: names are `seq<char>`, and strings other than configuration-file lines are assumed to hold no NUL. Case folding and `isspace` are those of the "C" locale only.
- `Papers.PaperLast`: the function-static `lastpaper` is a local variable. The table is constant, so every call stores the same value the previous call did. For an empty table the static keeps its initial NULL.
