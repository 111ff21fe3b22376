/** The loop both SQL consolidation scripts share: the files of an ordered list are
    appended to one output, each under a `-- File:` line and grouped under section
    headers. A header is written only when a file's section differs from the
    previous one, and a counter counts the headers written (the catch-all section
    is named after it). A file that does not exist is skipped, with or without a
    warning comment. */
module SqlBundle {
  import opened Text

  /** What opening a file of the list finds. */
  datatype FileState = Absent | Unreadable(error: string) | Readable(content: string)

  function FileOf(fs: map<string, FileState>, name: string): FileState {
    if name in fs then fs[name] else Absent
  }

  /** The pieces the loop writes. */
  datatype Piece = Warning(file: string) | Header(section: string) | FileBlock(file: string, body: string)

  const Rule: string := "-- =====================================================\n"

  function RenderPiece(p: Piece): string {
    match p
    case Warning(f) => "-- Warning: " + f + " not found, skipping...\n\n"
    case Header(s) => "\n" + Rule + "-- " + s + "\n" + Rule + "\n"
    case FileBlock(f, body) => "-- File: " + f + "\n" + body
  }

  function Render(ps: seq<Piece>): string {
    if ps == [] then "" else Render(ps[..|ps| - 1]) + RenderPiece(ps[|ps| - 1])
  }

  /** What follows a file's `-- File:` line: its stripped content, a note for an
      empty file, or the reading error. */
  function Body(f: FileState): (r: string)
    requires !f.Absent?
    ensures f.Readable? && Strip(f.content) != "" ==> r == Strip(f.content) + "\n\n"
    ensures f.Readable? && Strip(f.content) == "" ==> r == "-- (empty file)\n\n"
    ensures f.Unreadable? ==> r == "-- Error reading file: " + f.error + "\n\n"
  {
    match f
    case Readable(c) => if Strip(c) != "" then Strip(c) + "\n\n" else "-- (empty file)\n\n"
    case Unreadable(e) => "-- Error reading file: " + e + "\n\n"
  }

  /** The loop's variables: what has been written, `current_section` and
      `section_counter`. */
  datatype State = State(pieces: seq<Piece>, current: string, counter: nat)

  /** One iteration for `file`. `classify` is the script's if/elif chain, which may
      read the counter. */
  function Step(st: State, file: string, fs: map<string, FileState>, classify: (string, nat) -> string, warnMissing: bool): State {
    var f := FileOf(fs, file);
    if f.Absent? then
      if warnMissing then st.(pieces := st.pieces + [Warning(file)]) else st
    else
      var section := classify(file, st.counter);
      var st1 := if section != st.current then State(st.pieces + [Header(section)], section, st.counter + 1) else st;
      st1.(pieces := st1.pieces + [FileBlock(file, Body(f))])
  }

  /** The loop over the whole list. */
  function Bundle(files: seq<string>, fs: map<string, FileState>, classify: (string, nat) -> string, warnMissing: bool): State {
    if files == [] then State([], "", 0)
    else Step(Bundle(files[..|files| - 1], fs, classify, warnMissing), files[|files| - 1], fs, classify, warnMissing)
  }

  /** Text written between a head and a tail starts with the head and ends with
      the tail. */
  lemma Framed(head: string, body: string, tail: string)
    ensures (head + body + tail)[..|head|] == head
    ensures (head + body + tail)[|head + body + tail| - |tail|..] == tail
  {
    var t := head + body + tail;
    assert forall k :: 0 <= k < |head| ==> t[k] == head[k];
    assert forall k :: 0 <= k < |tail| ==> t[|t| - |tail| + k] == tail[k];
  }

  lemma RenderSnoc(ps: seq<Piece>, p: Piece)
    ensures Render(ps + [p]) == Render(ps) + RenderPiece(p)
  {
    assert (ps + [p])[..|ps|] == ps;
  }

  lemma BundleStep(files: seq<string>, i: nat, fs: map<string, FileState>, classify: (string, nat) -> string, warnMissing: bool)
    requires i < |files|
    ensures Bundle(files[..i + 1], fs, classify, warnMissing) == Step(Bundle(files[..i], fs, classify, warnMissing), files[i], fs, classify, warnMissing)
  {
    assert files[..i + 1][..i] == files[..i];
  }

  /** `for sql_file in sql_files_order: ...`, writing to the output text. */
  method WriteFiles(files: seq<string>, fs: map<string, FileState>, classify: (string, nat) -> string, warnMissing: bool)
    returns (text: string)
    ensures text == Render(Bundle(files, fs, classify, warnMissing).pieces)
  {
    var current := "";
    var counter := 0;
    ghost var pieces: seq<Piece> := [];
    text := "";
    for i := 0 to |files|
      invariant State(pieces, current, counter) == Bundle(files[..i], fs, classify, warnMissing)
      invariant text == Render(pieces)
    {
      BundleStep(files, i, fs, classify, warnMissing);
      var file := files[i];
      var f := FileOf(fs, file);
      if f.Absent? {
        if warnMissing {
          RenderSnoc(pieces, Warning(file));
          text := text + RenderPiece(Warning(file));
          pieces := pieces + [Warning(file)];
        }
        continue;
      }
      var section := classify(file, counter);
      if section != current {
        RenderSnoc(pieces, Header(section));
        text := text + RenderPiece(Header(section));
        pieces := pieces + [Header(section)];
        current := section;
        counter := counter + 1;
      }
      RenderSnoc(pieces, FileBlock(file, Body(f)));
      text := text + RenderPiece(FileBlock(file, Body(f)));
      pieces := pieces + [FileBlock(file, Body(f))];
    }
    assert files[..|files|] == files;
  }

  // ---- what the pieces say ----

  /** The sections of the headers written, in order. */
  function Headers(ps: seq<Piece>): seq<string> {
    if ps == [] then []
    else Headers(ps[..|ps| - 1]) + (if ps[|ps| - 1].Header? then [ps[|ps| - 1].section] else [])
  }

  /** The files copied, in order. */
  function Blocks(ps: seq<Piece>): seq<string> {
    if ps == [] then []
    else Blocks(ps[..|ps| - 1]) + (if ps[|ps| - 1].FileBlock? then [ps[|ps| - 1].file] else [])
  }

  /** The files warned about, in order. */
  function Warnings(ps: seq<Piece>): seq<string> {
    if ps == [] then []
    else Warnings(ps[..|ps| - 1]) + (if ps[|ps| - 1].Warning? then [ps[|ps| - 1].file] else [])
  }

  lemma PiecesAppend(ps: seq<Piece>, qs: seq<Piece>)
    ensures Headers(ps + qs) == Headers(ps) + Headers(qs)
    ensures Blocks(ps + qs) == Blocks(ps) + Blocks(qs)
    ensures Warnings(ps + qs) == Warnings(ps) + Warnings(qs)
  {
    HeadersAppend(ps, qs);
    BlocksAppend(ps, qs);
    WarningsAppend(ps, qs);
  }

  lemma {:induction false} HeadersAppend(ps: seq<Piece>, qs: seq<Piece>)
    ensures Headers(ps + qs) == Headers(ps) + Headers(qs)
    decreases |qs|
  {
    if qs == [] {
      assert ps + qs == ps;
    } else {
      var init := qs[..|qs| - 1];
      HeadersAppend(ps, init);
      var last := qs[|qs| - 1];
      var x := if last.Header? then [last.section] else [];
      assert (ps + qs)[..|ps + qs| - 1] == ps + init;
      assert (ps + qs)[|ps + qs| - 1] == last;
      assert Headers(ps + qs) == Headers(ps + init) + x;
      assert Headers(qs) == Headers(init) + x;
    }
  }

  lemma {:induction false} BlocksAppend(ps: seq<Piece>, qs: seq<Piece>)
    ensures Blocks(ps + qs) == Blocks(ps) + Blocks(qs)
    decreases |qs|
  {
    if qs == [] {
      assert ps + qs == ps;
    } else {
      var init := qs[..|qs| - 1];
      BlocksAppend(ps, init);
      var last := qs[|qs| - 1];
      var x := if last.FileBlock? then [last.file] else [];
      assert (ps + qs)[..|ps + qs| - 1] == ps + init;
      assert (ps + qs)[|ps + qs| - 1] == last;
      assert Blocks(ps + qs) == Blocks(ps + init) + x;
      assert Blocks(qs) == Blocks(init) + x;
    }
  }

  lemma {:induction false} WarningsAppend(ps: seq<Piece>, qs: seq<Piece>)
    ensures Warnings(ps + qs) == Warnings(ps) + Warnings(qs)
    decreases |qs|
  {
    if qs == [] {
      assert ps + qs == ps;
    } else {
      var init := qs[..|qs| - 1];
      WarningsAppend(ps, init);
      var last := qs[|qs| - 1];
      var x := if last.Warning? then [last.file] else [];
      assert (ps + qs)[..|ps + qs| - 1] == ps + init;
      assert (ps + qs)[|ps + qs| - 1] == last;
      assert Warnings(ps + qs) == Warnings(ps + init) + x;
      assert Warnings(qs) == Warnings(init) + x;
    }
  }

  /** A step writes a header iff the file exists and its section differs from the
      current one; the counter then grows by one and the section becomes current. */
  lemma StepHeader(st: State, file: string, fs: map<string, FileState>, classify: (string, nat) -> string, warnMissing: bool)
    ensures var next := Step(st, file, fs, classify, warnMissing);
      var changed := !FileOf(fs, file).Absent? && classify(file, st.counter) != st.current;
      && (Headers(next.pieces) == Headers(st.pieces) + (if changed then [classify(file, st.counter)] else []))
      && (next.counter == st.counter + (if changed then 1 else 0))
      && (next.current == if changed then classify(file, st.counter) else st.current)
  {
    var next := Step(st, file, fs, classify, warnMissing);
    var f := FileOf(fs, file);
    if f.Absent? {
      if warnMissing {
        PiecesAppend(st.pieces, [Warning(file)]);
        assert Headers([Warning(file)]) == [];
      }
    } else {
      var section := classify(file, st.counter);
      var st1 := if section != st.current then State(st.pieces + [Header(section)], section, st.counter + 1) else st;
      PiecesAppend(st.pieces, [Header(section)]);
      assert Headers([Header(section)]) == [section];
      PiecesAppend(st1.pieces, [FileBlock(file, Body(f))]);
      assert Headers([FileBlock(file, Body(f))]) == [];
    }
  }

  /** The counter is the number of headers, the current section the last one's,
      and no two consecutive headers repeat a section. */
  predicate Tracked(st: State) {
    var hs := Headers(st.pieces);
    && st.counter == |hs|
    && st.current == (if hs == [] then "" else hs[|hs| - 1])
    && forall k :: 0 <= k < |hs| - 1 ==> hs[k] != hs[k + 1]
  }

  /** The counter is the number of headers written, the current section is the
      last header's, and no two consecutive headers repeat a section. */
  lemma {:induction false} HeadersTrack(files: seq<string>, fs: map<string, FileState>, classify: (string, nat) -> string, warnMissing: bool)
    ensures Tracked(Bundle(files, fs, classify, warnMissing))
  {
    if files != [] {
      var init := files[..|files| - 1];
      HeadersTrack(init, fs, classify, warnMissing);
      StepHeader(Bundle(init, fs, classify, warnMissing), files[|files| - 1], fs, classify, warnMissing);
    }
  }

  function Exists(fs: map<string, FileState>): string -> bool {
    (name: string) => !FileOf(fs, name).Absent?
  }

  function Missing(fs: map<string, FileState>): string -> bool {
    (name: string) => FileOf(fs, name).Absent?
  }

  /** The files kept, in list order. */
  function Present(files: seq<string>, fs: map<string, FileState>): seq<string> {
    if files == [] then []
    else Present(files[..|files| - 1], fs) + (if Exists(fs)(files[|files| - 1]) then [files[|files| - 1]] else [])
  }

  function Skipped(files: seq<string>, fs: map<string, FileState>): seq<string> {
    if files == [] then []
    else Skipped(files[..|files| - 1], fs) + (if Missing(fs)(files[|files| - 1]) then [files[|files| - 1]] else [])
  }

  /** A step copies the file iff it exists, and warns about it iff it is missing
      and warnings are on. */
  lemma StepBlocks(st: State, file: string, fs: map<string, FileState>, classify: (string, nat) -> string, warnMissing: bool)
    ensures var next := Step(st, file, fs, classify, warnMissing);
      && Blocks(next.pieces) == Blocks(st.pieces) + (if Exists(fs)(file) then [file] else [])
      && Warnings(next.pieces) == Warnings(st.pieces) + (if warnMissing && Missing(fs)(file) then [file] else [])
  {
    var f := FileOf(fs, file);
    if f.Absent? {
      if warnMissing {
        PiecesAppend(st.pieces, [Warning(file)]);
        assert Blocks([Warning(file)]) == [] && Warnings([Warning(file)]) == [file];
      }
    } else {
      var section := classify(file, st.counter);
      var st1 := if section != st.current then State(st.pieces + [Header(section)], section, st.counter + 1) else st;
      PiecesAppend(st.pieces, [Header(section)]);
      assert Blocks([Header(section)]) == [] && Warnings([Header(section)]) == [];
      PiecesAppend(st1.pieces, [FileBlock(file, Body(f))]);
      assert Blocks([FileBlock(file, Body(f))]) == [file] && Warnings([FileBlock(file, Body(f))]) == [];
    }
  }

  /** Every existing file is copied exactly once, in list order, and nothing else;
      a warning is written for each missing file iff warnings are on. */
  lemma {:induction false} BlocksAreFiles(files: seq<string>, fs: map<string, FileState>, classify: (string, nat) -> string, warnMissing: bool)
    ensures Blocks(Bundle(files, fs, classify, warnMissing).pieces) == Present(files, fs)
    ensures Warnings(Bundle(files, fs, classify, warnMissing).pieces) == if warnMissing then Skipped(files, fs) else []
  {
    if files != [] {
      var init := files[..|files| - 1];
      BlocksAreFiles(init, fs, classify, warnMissing);
      StepBlocks(Bundle(init, fs, classify, warnMissing), files[|files| - 1], fs, classify, warnMissing);
    }
  }

  // ---- the catch-all section ----

  /** `f"{section_counter}. MISCELLANEOUS"`. */
  function Misc(counter: nat): string {
    NatToString(counter) + ". MISCELLANEOUS"
  }

  lemma MiscInjective(a: nat, b: nat)
    requires Misc(a) == Misc(b)
    ensures a == b
  {
    var x := ". MISCELLANEOUS";
    assert |NatToString(a)| == |NatToString(b)|;
    assert NatToString(a) == Misc(a)[..|NatToString(a)|];
    assert NatToString(b) == Misc(b)[..|NatToString(b)|];
    NatToStringInjective(a, b);
  }

  /** The next-to-last letter of a catch-all section name, which no named
      section shares. */
  lemma MiscLetter(counter: nat)
    ensures |Misc(counter)| >= 2 && Misc(counter)[|Misc(counter)| - 2] == 'U'
  {
  }

  /** A classifier whose only counter-numbered sections are `Misc(counter)` for the
      counter it is given. */
  ghost predicate NumbersMisc(classify: (string, nat) -> string) {
    forall f, c, k {:trigger classify(f, c), Misc(k)} :: classify(f, c) == Misc(k) ==> k == c
  }

  /** When the current section is a catch-all one, it was numbered with the counter
      before its header, so it is one behind the counter. */
  lemma {:induction false} MiscTrack(files: seq<string>, fs: map<string, FileState>, classify: (string, nat) -> string, warnMissing: bool)
    requires NumbersMisc(classify)
    ensures var st := Bundle(files, fs, classify, warnMissing);
      forall k: nat :: st.current == Misc(k) ==> k + 1 == st.counter
  {
    if files != [] {
      var init := files[..|files| - 1];
      var file := files[|files| - 1];
      MiscTrack(init, fs, classify, warnMissing);
      var st := Bundle(init, fs, classify, warnMissing);
      var next := Step(st, file, fs, classify, warnMissing);
      if !FileOf(fs, file).Absent? && classify(file, st.counter) != st.current {
        assert next.current == classify(file, st.counter) && next.counter == st.counter + 1;
      } else {
        assert next.current == st.current && next.counter == st.counter;
      }
    }
  }

  /** Two catch-all files never share a header: each existing file classified as
      `Misc(counter)` is written under a header of its own. */
  lemma MiscHeaded(files: seq<string>, file: string, fs: map<string, FileState>, classify: (string, nat) -> string, warnMissing: bool)
    requires NumbersMisc(classify)
    requires !FileOf(fs, file).Absent?
    requires var st := Bundle(files, fs, classify, warnMissing);
      classify(file, st.counter) == Misc(st.counter)
    ensures var st := Bundle(files, fs, classify, warnMissing);
      Headers(Bundle(files + [file], fs, classify, warnMissing).pieces) == Headers(st.pieces) + [Misc(st.counter)]
  {
    var st := Bundle(files, fs, classify, warnMissing);
    MiscTrack(files, fs, classify, warnMissing);
    assert (files + [file])[..|files + [file]| - 1] == files;
    StepHeader(st, file, fs, classify, warnMissing);
  }
}
