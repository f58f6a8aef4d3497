/** The migration runner over restarts: which files run, in which order, and what is recorded when one
    fails.  `history` is everything the database was asked to do, oldest first. */
module Migrator {
  import opened Schema
  import opened SqlText
  import opened Text

  datatype File = File(name: string, text: string)

  datatype Entry =
    | Ran(name: string, statement: string)     // one statement of a file succeeded
    | Recorded(name: string, text: string)     // the file was recorded after it ran
    | Baselined(name: string)                  // the file was recorded without running
  {
    predicate Marks() {
      Recorded? || Baselined?
    }
  }

  /** `applied` is the table schema_migrations. */
  datatype State = State(applied: set<string>, history: seq<Entry>)

  /** Where a run breaks: at a statement of a file (or, past its last statement, at recording it), or
      while the baseline is written. */
  datatype Fault = NoFault | BreaksAt(name: string, after: nat) | BaselineBreaks

  // ---------------------------------------------------------------- name order

  predicate Before(a: string, b: string) {
    b != [] && (a == [] || a[0] < b[0] || (a[0] == b[0] && Before(a[1..], b[1..])))
  }

  lemma {:induction false} BeforeIsTotal(a: string, b: string)
    ensures a == b || Before(a, b) || Before(b, a)
  {
    if a != [] && b != [] && a[0] == b[0] {
      BeforeIsTotal(a[1..], b[1..]);
      assert a == [a[0]] + a[1..] && b == [b[0]] + b[1..];
    }
  }

  lemma {:induction false} BeforeIsTransitive(a: string, b: string, c: string)
    requires Before(a, b) && Before(b, c)
    ensures Before(a, c)
  {
    if a != [] && a[0] == b[0] == c[0] {
      BeforeIsTransitive(a[1..], b[1..], c[1..]);
    }
  }

  lemma {:induction false} NeverBeforeItself(a: string)
    ensures !Before(a, a)
  {
    if a != [] {
      NeverBeforeItself(a[1..]);
    }
  }

  /** Where two names first differ, at `k`, the smaller character comes first, and the end of a name before any
      character. */
  lemma {:induction false} FirstDifferenceDecides(a: string, b: string, k: nat)
    requires k <= |a| && k <= |b| && a[..k] == b[..k]
    requires if k == |a| then k < |b| else k < |b| && a[k] < b[k]
    ensures Before(a, b) && !Before(b, a)
  {
    if k > 0 {
      assert a[0] == a[..k][0] == b[..k][0] == b[0];
      assert a[1..][..k - 1] == a[..k][1..] == b[..k][1..] == b[1..][..k - 1];
      FirstDifferenceDecides(a[1..], b[1..], k - 1);
    }
  }

  lemma FourDigitValue(s: string)
    requires |s| == 4 && forall i :: 0 <= i < |s| ==> IsDigit(s[i])
    ensures Value(s) == 1000 * (s[0] as int - 48) + 100 * (s[1] as int - 48) + 10 * (s[2] as int - 48)
                        + (s[3] as int - 48)
  {
    var three, two, one := s[..3], s[..2], s[..1];
    assert three[..2] == two && two[..1] == one && one[..0] == [];
    assert Value(one) == s[0] as int - 48 && Value(two) == 10 * Value(one) + (s[1] as int - 48);
    assert Value(three) == 10 * Value(two) + (s[2] as int - 48);
  }

  /** So files numbered with four digits come in the order of their numbers, whatever follows the number. */
  lemma NumbersDecide(one: string, two: string, a: string, b: string)
    requires |one| == |two| == 4
    requires (forall i :: 0 <= i < 4 ==> IsDigit(one[i])) && (forall i :: 0 <= i < 4 ==> IsDigit(two[i]))
    requires Value(one) < Value(two)
    ensures Before(one + a, two + b) && !Before(two + b, one + a)
  {
    FourDigitValue(one);
    FourDigitValue(two);
    var k := if one[0] != two[0] then 0 else if one[1] != two[1] then 1 else if one[2] != two[2] then 2 else 3;
    assert one[..k] == two[..k] && one[k] < two[k];
    assert (one + a)[..k] == one[..k] && (two + b)[..k] == two[..k];
    FirstDifferenceDecides(one + a, two + b, k);
  }

  /** A directory's names are distinct. */
  ghost predicate Distinct(files: seq<File>) {
    forall i, j :: 0 <= i < j < |files| ==> files[i].name != files[j].name
  }

  ghost predicate InNameOrder(files: seq<File>) {
    forall i, j :: 0 <= i < j < |files| ==> Before(files[i].name, files[j].name)
  }

  function Insert(file: File, files: seq<File>): (more: seq<File>) {
    if files == [] || Before(file.name, files[0].name) then [file] + files
    else [files[0]] + Insert(file, files[1..])
  }

  /** sorted(glob("*.sql")). */
  function Sorted(listing: seq<File>): (files: seq<File>) {
    if listing == [] then [] else Insert(listing[0], Sorted(listing[1..]))
  }

  lemma {:induction false} InsertAdds(file: File, files: seq<File>)
    ensures multiset(Insert(file, files)) == multiset{file} + multiset(files)
    ensures forall f :: f in Insert(file, files) <==> f == file || f in files
  {
    if files != [] && !Before(file.name, files[0].name) {
      InsertAdds(file, files[1..]);
      assert files == [files[0]] + files[1..];
    }
    forall f
      ensures f in Insert(file, files) <==> f == file || f in files
    {
      assert f in multiset(Insert(file, files)) <==> f in multiset{file} + multiset(files);
    }
  }

  lemma {:induction false} InsertKeeps(file: File, files: seq<File>)
    requires InNameOrder(files) && forall f :: f in files ==> f.name != file.name
    ensures InNameOrder(Insert(file, files))
  {
    if files == [] || Before(file.name, files[0].name) {
      forall j | 0 <= j < |files|
        ensures Before(file.name, files[j].name)
      {
        if j > 0 {
          BeforeIsTransitive(file.name, files[0].name, files[j].name);
        }
      }
    } else {
      InsertKeeps(file, files[1..]);
      InsertAdds(file, files[1..]);
      assert files[0] in files;
      BeforeIsTotal(file.name, files[0].name);
      HeadFirst(files[0], Insert(file, files[1..]), files, file);
    }
  }

  lemma HeadFirst(head: File, rest: seq<File>, files: seq<File>, file: File)
    requires files != [] && head == files[0] && InNameOrder(files) && InNameOrder(rest) && Before(head.name, file.name)
    requires forall f :: f in rest ==> f == file || f in files[1..]
    ensures InNameOrder([head] + rest)
  {
    forall j | 0 <= j < |rest|
      ensures Before(head.name, rest[j].name)
    {
      assert rest[j] in rest;
    }
  }

  /** The sorted listing is the listing, in strict name order. */
  lemma {:induction false} SortedSorts(listing: seq<File>)
    requires Distinct(listing)
    ensures multiset(Sorted(listing)) == multiset(listing)
    ensures InNameOrder(Sorted(listing))
    ensures forall f :: f in Sorted(listing) <==> f in listing
  {
    if listing != [] {
      SortedSorts(listing[1..]);
      assert listing == [listing[0]] + listing[1..];
      forall f | f in Sorted(listing[1..])
        ensures f.name != listing[0].name
      {
        assert f in listing[1..];
      }
      InsertAdds(listing[0], Sorted(listing[1..]));
      InsertKeeps(listing[0], Sorted(listing[1..]));
    }
    forall f
      ensures f in Sorted(listing) <==> f in listing
    {
      assert f in multiset(Sorted(listing)) <==> f in multiset(listing);
    }
  }

  // ---------------------------------------------------------------- one run

  function Rans(name: string, statements: seq<string>): (entries: seq<Entry>) {
    seq(|statements|, i requires 0 <= i < |statements| => Ran(name, statements[i]))
  }

  predicate Breaks(file: File, fault: Fault) {
    fault.BreaksAt? && fault.name == file.name && fault.after <= |Statements(file.text)|
  }

  /** One file in its own connection: all statements, then its record; an error ends the run. */
  function RunFile(s: State, file: File, fault: Fault): (after: State) {
    var statements := Statements(file.text);
    if Breaks(file, fault) then s.(history := s.history + Rans(file.name, statements[..fault.after]))
    else State(s.applied + {file.name}, s.history + Rans(file.name, statements) + [Recorded(file.name, file.text)])
  }

  /** Entry by entry: one for each statement that ran, in order, and the record behind the last one; a fault in
      this file cuts the statements off there and leaves the file unrecorded. */
  lemma FileEntryByEntry(s: State, file: File, fault: Fault)
    ensures var d := RunFile(s, file, fault); var statements := Statements(file.text); var h := |s.history|;
            if fault.BreaksAt? && fault.name == file.name && fault.after <= |statements| then
              && d.applied == s.applied && |d.history| == h + fault.after && d.history[..h] == s.history
              && forall i :: 0 <= i < fault.after ==> d.history[h + i] == Ran(file.name, statements[i])
            else
              && d.applied == s.applied + {file.name} && |d.history| == h + |statements| + 1
              && d.history[..h] == s.history && d.history[h + |statements|] == Recorded(file.name, file.text)
              && forall i :: 0 <= i < |statements| ==> d.history[h + i] == Ran(file.name, statements[i])
  {
  }

  function RunPending(s: State, files: seq<File>, fault: Fault): (r: (State, bool))
    decreases |files|
  {
    if files == [] then (s, true)
    else if Breaks(files[0], fault) then (RunFile(s, files[0], fault), false)
    else RunPending(RunFile(s, files[0], fault), files[1..], fault)
  }

  function Pending(files: seq<File>, applied: set<string>): (pending: seq<File>) {
    if files == [] then []
    else (if files[0].name in applied then [] else [files[0]]) + Pending(files[1..], applied)
  }

  /** Record without running. */
  function Baseline(s: State, files: seq<File>): (after: State)
    decreases |files|
  {
    if files == [] then s
    else Baseline(State(s.applied + {files[0].name}, s.history + [Baselined(files[0].name)]), files[1..])
  }

  /** run_migrations: the state it leaves, and whether it ended normally.  With nothing recorded yet
      every file in the directory is taken for already applied. */
  function RunOnce(s: State, listing: seq<File>, fault: Fault): (r: (State, bool)) {
    var files := Sorted(listing);
    if files == [] then (s, true)
    else if s.applied == {} then
      if fault.BaselineBreaks? then (s, false) else (Baseline(s, files), true)
    else RunPending(s, Pending(files, s.applied), fault)
  }

  class Runner {
    var applied: set<string>
    var history: seq<Entry>

    constructor ()
      ensures applied == {} && history == []
    {
      applied, history := {}, [];
    }

    /** One start of the program.  True says that the run ended normally. */
    method RunMigrations(listing: seq<File>, fault: Fault) returns (ok: bool)
      modifies this
      ensures (State(applied, history), ok) == RunOnce(State(old(applied), old(history)), listing, fault)
    {
      var files := Sorted(listing);
      if files == [] {
        return true;
      }
      if applied == {} {
        if fault.BaselineBreaks? {
          return false;
        }
        RecordBaseline(files);
        return true;
      }
      ok := RunPendingFiles(Pending(files, applied), fault);
    }

    /** The pending files one by one, up to the first that fails. */
    method RunPendingFiles(pending: seq<File>, fault: Fault) returns (ok: bool)
      modifies this
      ensures (State(applied, history), ok) == RunPending(State(old(applied), old(history)), pending, fault)
    {
      var i := 0;
      while i < |pending|
        invariant 0 <= i <= |pending|
        invariant RunPending(State(applied, history), pending[i..], fault)
                  == RunPending(State(old(applied), old(history)), pending, fault)
      {
        assert pending[i..][0] == pending[i] && pending[i..][1..] == pending[i + 1..];
        var done := RunOneFile(pending[i], fault);
        if !done {
          return false;
        }
        i := i + 1;
      }
      return true;
    }

    method RecordBaseline(files: seq<File>)
      modifies this
      ensures State(applied, history) == Baseline(State(old(applied), old(history)), files)
    {
      var i := 0;
      while i < |files|
        invariant 0 <= i <= |files|
        invariant Baseline(State(applied, history), files[i..]) == Baseline(State(old(applied), old(history)), files)
      {
        assert files[i..][0] == files[i] && files[i..][1..] == files[i + 1..];
        applied := applied + {files[i].name};
        history := history + [Baselined(files[i].name)];
        i := i + 1;
      }
    }

    /** The statements one by one, then the record. */
    method RunOneFile(file: File, fault: Fault) returns (ok: bool)
      modifies this
      ensures State(applied, history) == RunFile(State(old(applied), old(history)), file, fault)
      ensures ok == !Breaks(file, fault)
    {
      var statements := SplitStatements(file.text);
      var k := 0;
      while k < |statements|
        invariant 0 <= k <= |statements| && (Breaks(file, fault) ==> k <= fault.after)
        invariant applied == old(applied) && history == old(history) + Rans(file.name, statements[..k])
      {
        if fault == BreaksAt(file.name, k) {
          return false;
        }
        assert Rans(file.name, statements[..k + 1])
            == Rans(file.name, statements[..k]) + [Ran(file.name, statements[k])];
        history := history + [Ran(file.name, statements[k])];
        k := k + 1;
      }
      assert statements[..k] == statements;
      if fault == BreaksAt(file.name, k) {
        return false;
      }
      applied := applied + {file.name};
      history := history + [Recorded(file.name, file.text)];
      return true;
    }
  }

  // ---------------------------------------------------------------- what every run keeps

  /** The record of a file stands right behind all of its statements, in order. */
  predicate Whole(history: seq<Entry>, i: nat)
    requires i < |history|
  {
    history[i].Recorded? ==>
      var statements := Statements(history[i].text);
      |statements| <= i && history[i - |statements|..i] == Rans(history[i].name, statements)
  }

  ghost predicate MarkedIn(history: seq<Entry>, name: string) {
    exists i :: 0 <= i < |history| && history[i].Marks() && history[i].name == name
  }

  ghost predicate Inv(s: State) {
    && (forall i :: 0 <= i < |s.history| ==> Whole(s.history, i))
    // recorded is recorded in the table
    && (forall name :: name in s.applied <==> MarkedIn(s.history, name))
    // after its record nothing more happens to a file
    && (forall i, j :: 0 <= i < j < |s.history| && s.history[i].Marks() ==> s.history[j].name != s.history[i].name)
    // nothing has run when the baseline is taken
    && (forall i, j :: 0 <= i < j < |s.history| && s.history[i].Ran? ==> !s.history[j].Baselined?)
    && (s.applied == {} ==> s.history == [])
  }

  lemma AppendRan(s: State, name: string, statement: string)
    requires Inv(s) && s.applied != {} && name !in s.applied
    ensures Inv(s.(history := s.history + [Ran(name, statement)]))
  {
    var history := s.history + [Ran(name, statement)];
    forall i | 0 <= i < |history|
      ensures Whole(history, i)
    {
      if i < |s.history| {
        assert Whole(s.history, i);
        assert history[..i] == s.history[..i];
        StillWhole(s.history, history, i);
      }
    }
    forall n
      ensures MarkedIn(history, n) <==> MarkedIn(s.history, n)
    {
      SameMarks(s.history, Ran(name, statement), n);
    }
    assert forall i :: 0 <= i < |s.history| && s.history[i].Marks() ==> MarkedIn(s.history, s.history[i].name);
  }

  lemma StillWhole(history: seq<Entry>, more: seq<Entry>, i: nat)
    requires i < |history| <= |more| && more[..|history|] == history && Whole(history, i)
    ensures Whole(more, i)
  {
    assert more[i] == history[i];
    if history[i].Recorded? {
      var n := |Statements(history[i].text)|;
      assert more[i - n..i] == history[i - n..i];
    }
  }

  lemma SameMarks(history: seq<Entry>, entry: Entry, name: string)
    ensures MarkedIn(history + [entry], name) <==> MarkedIn(history, name) || (entry.Marks() && entry.name == name)
  {
    var more := history + [entry];
    if MarkedIn(history, name) {
      var i :| 0 <= i < |history| && history[i].Marks() && history[i].name == name;
      assert more[i] == history[i];
    }
    if entry.Marks() && entry.name == name {
      assert more[|history|] == entry;
    }
  }

  lemma AppendMark(s: State, mark: Entry)
    requires Inv(s) && mark.Marks() && mark.name !in s.applied
    requires mark.Recorded? ==> s.applied != {} && Whole(s.history + [mark], |s.history|)
    requires mark.Baselined? ==> forall i :: 0 <= i < |s.history| ==> !s.history[i].Ran?
    ensures Inv(State(s.applied + {mark.name}, s.history + [mark]))
  {
    WholeMore(s.history, mark);
    MarkedMore(s, mark);
    assert forall i :: 0 <= i < |s.history| && s.history[i].Marks() ==> MarkedIn(s.history, s.history[i].name);
  }

  lemma WholeMore(history: seq<Entry>, entry: Entry)
    requires forall i :: 0 <= i < |history| ==> Whole(history, i)
    requires Whole(history + [entry], |history|)
    ensures forall i :: 0 <= i <= |history| ==> Whole(history + [entry], i)
  {
    var more := history + [entry];
    forall i | 0 <= i < |history|
      ensures Whole(more, i)
    {
      assert more[..|history|] == history;
      StillWhole(history, more, i);
    }
  }

  lemma MarkedMore(s: State, mark: Entry)
    requires mark.Marks() && forall name :: name in s.applied <==> MarkedIn(s.history, name)
    ensures forall name :: name in s.applied + {mark.name} <==> MarkedIn(s.history + [mark], name)
  {
    forall name
      ensures name in s.applied + {mark.name} <==> MarkedIn(s.history + [mark], name)
    {
      SameMarks(s.history, mark, name);
    }
  }

  lemma {:induction false} AppendRans(s: State, name: string, statements: seq<string>)
    requires Inv(s) && s.applied != {} && name !in s.applied
    ensures Inv(s.(history := s.history + Rans(name, statements)))
  {
    if statements == [] {
      assert s.history + Rans(name, statements) == s.history;
    } else {
      var most := statements[..|statements| - 1];
      AppendRans(s, name, most);
      AppendRan(s.(history := s.history + Rans(name, most)), name, statements[|statements| - 1]);
      assert s.history + Rans(name, statements)
          == s.history + Rans(name, most) + [Ran(name, statements[|statements| - 1])];
    }
  }

  lemma FileKeeps(s: State, file: File, fault: Fault)
    requires Inv(s) && s.applied != {} && file.name !in s.applied
    ensures Inv(RunFile(s, file, fault))
  {
    var statements := Statements(file.text);
    if Breaks(file, fault) {
      AppendRans(s, file.name, statements[..fault.after]);
    } else {
      AppendRans(s, file.name, statements);
      var ran := s.(history := s.history + Rans(file.name, statements));
      var mark := Recorded(file.name, file.text);
      assert (ran.history + [mark])[|ran.history| - |statements|..|ran.history|] == Rans(file.name, statements);
      AppendMark(ran, mark);
    }
  }

  lemma {:induction false} PendingKeeps(s: State, files: seq<File>, fault: Fault)
    requires Inv(s) && s.applied != {} && Distinct(files)
    requires forall f :: f in files ==> f.name !in s.applied
    ensures Inv(RunPending(s, files, fault).0)
    decreases |files|
  {
    if files != [] {
      FileKeeps(s, files[0], fault);
      if !Breaks(files[0], fault) {
        forall f | f in files[1..]
          ensures f.name !in s.applied + {files[0].name}
        {
          var i :| 0 <= i < |files[1..]| && files[1..][i] == f;
          assert files[i + 1] == f;
        }
        PendingKeeps(RunFile(s, files[0], fault), files[1..], fault);
      }
    }
  }

  function NameSet(files: seq<File>): (names: set<string>) {
    set f | f in files :: f.name
  }

  lemma FirstName(files: seq<File>)
    requires files != []
    ensures NameSet(files) == {files[0].name} + NameSet(files[1..])
  {
    assert files == [files[0]] + files[1..];
  }

  lemma {:induction false} BaselineKeeps(s: State, files: seq<File>)
    requires Inv(s) && Distinct(files) && forall f :: f in files ==> f.name !in s.applied
    requires forall i :: 0 <= i < |s.history| ==> !s.history[i].Ran?
    ensures Inv(Baseline(s, files))
    ensures Baseline(s, files).applied == s.applied + NameSet(files)
    decreases |files|
  {
    if files != [] {
      var mark := Baselined(files[0].name);
      AppendMark(s, mark);
      forall f | f in files[1..]
        ensures f.name !in s.applied + {files[0].name}
      {
        var i :| 0 <= i < |files[1..]| && files[1..][i] == f;
        assert files[i + 1] == f;
      }
      BaselineKeeps(State(s.applied + {mark.name}, s.history + [mark]), files[1..]);
      FirstName(files);
    }
  }

  // ---------------------------------------------------------------- what one run records

  function Names(files: seq<File>): (names: seq<string>) {
    seq(|files|, i requires 0 <= i < |files| => files[i].name)
  }

  /** The records, oldest first. */
  function Marks(history: seq<Entry>): (names: seq<string>) {
    if history == [] then []
    else
      var last := history[|history| - 1];
      Marks(history[..|history| - 1]) + if last.Marks() then [last.name] else []
  }

  lemma {:induction false} MarksConcat(history: seq<Entry>, more: seq<Entry>)
    ensures Marks(history + more) == Marks(history) + Marks(more)
  {
    if more == [] {
      assert history + more == history;
    } else {
      var all := history + more;
      assert all[..|all| - 1] == history + more[..|more| - 1];
      MarksConcat(history, more[..|more| - 1]);
    }
  }

  lemma {:induction false} RansMarkNothing(name: string, statements: seq<string>)
    ensures Marks(Rans(name, statements)) == []
  {
    if statements != [] {
      RansMarkNothing(name, statements[..|statements| - 1]);
      assert Rans(name, statements)[..|statements| - 1] == Rans(name, statements[..|statements| - 1]);
    }
  }

  lemma FileMarks(s: State, file: File, fault: Fault)
    ensures Marks(RunFile(s, file, fault).history) == Marks(s.history) + if Breaks(file, fault) then [] else [file.name]
  {
    var statements := Statements(file.text);
    if Breaks(file, fault) {
      RansMarkNothing(file.name, statements[..fault.after]);
      MarksConcat(s.history, Rans(file.name, statements[..fault.after]));
    } else {
      var mark := Recorded(file.name, file.text);
      RansMarkNothing(file.name, statements);
      MarksConcat(s.history, Rans(file.name, statements));
      assert (s.history + Rans(file.name, statements) + [mark])[..|s.history| + |statements|]
          == s.history + Rans(file.name, statements);
    }
  }

  /** How far a run gets. */
  function Reached(files: seq<File>, fault: Fault): (k: nat)
    ensures k <= |files|
    ensures k < |files| ==> Breaks(files[k], fault)
  {
    if files == [] || Breaks(files[0], fault) then 0 else 1 + Reached(files[1..], fault)
  }

  lemma {:induction false} PendingRecordsPrefix(s: State, files: seq<File>, fault: Fault)
    ensures RecordsFirst(s, files, Reached(files, fault), RunPending(s, files, fault))
    decreases |files|
  {
    if files == [] || Breaks(files[0], fault) {
      NoFile(files);
      if files != [] {
        FileMarks(s, files[0], fault);
      }
    } else {
      var next := RunFile(s, files[0], fault);
      FileMarks(s, files[0], fault);
      PendingRecordsPrefix(next, files[1..], fault);
      RecordsOneMore(s, next, files, Reached(files[1..], fault), RunPending(next, files[1..], fault));
    }
  }

  /** The result of a run that recorded the first `k` files, and all of them if it ended normally. */
  predicate RecordsFirst(s: State, files: seq<File>, k: nat, r: (State, bool))
    requires k <= |files|
  {
    && Marks(r.0.history) == Marks(s.history) + Names(files[..k])
    && r.0.applied == s.applied + NameSet(files[..k])
    && (r.1 <==> k == |files|)
  }

  lemma RecordsOneMore(s: State, next: State, files: seq<File>, k: nat, r: (State, bool))
    requires files != [] && k < |files| && RecordsFirst(next, files[1..], k, r)
    requires Marks(next.history) == Marks(s.history) + [files[0].name]
    requires next.applied == s.applied + {files[0].name}
    ensures RecordsFirst(s, files, k + 1, r)
  {
    OneFileMore(files, k + 1);
  }

  lemma NoFile(files: seq<File>)
    ensures Names(files[..0]) == [] && NameSet(files[..0]) == {}
  {
    assert files[..0] == [];
  }

  lemma OneFileMore(files: seq<File>, k: nat)
    requires 0 < k <= |files|
    ensures Names(files[..k]) == [files[0].name] + Names(files[1..][..k - 1])
    ensures NameSet(files[..k]) == {files[0].name} + NameSet(files[1..][..k - 1])
  {
    assert files[..k][1..] == files[1..][..k - 1];
    FirstName(files[..k]);
  }

  /** The pending files are the unrecorded ones, in the order given. */
  lemma {:induction false} PendingIs(files: seq<File>, applied: set<string>)
    requires InNameOrder(files)
    ensures InNameOrder(Pending(files, applied))
    ensures forall f :: f in Pending(files, applied) <==> f in files && f.name !in applied
  {
    if files != [] {
      var rest := files[1..];
      PendingIs(rest, applied);
      assert files == [files[0]] + rest;
      forall j | 0 <= j < |Pending(rest, applied)|
        ensures Before(files[0].name, Pending(rest, applied)[j].name)
      {
        var f := Pending(rest, applied)[j];
        assert f in Pending(rest, applied) && f in rest;
        var i :| 0 <= i < |rest| && rest[i] == f;
        assert files[i + 1] == f;
      }
    }
  }

  lemma OrderIsDistinct(files: seq<File>)
    requires InNameOrder(files)
    ensures Distinct(files)
  {
    forall i, j | 0 <= i < j < |files|
      ensures files[i].name != files[j].name
    {
      NeverBeforeItself(files[i].name);
    }
  }

  /** One run on a non-empty record: it records a prefix, in name order, of the files that were pending,
      and all of them when it ends normally. */
  lemma RunRecordsPrefix(s: State, listing: seq<File>, fault: Fault)
    requires Inv(s) && Distinct(listing) && s.applied != {}
    ensures var pending := Pending(Sorted(listing), s.applied); var (d, ok) := RunOnce(s, listing, fault);
            && InNameOrder(pending) && (forall f :: f in pending <==> f in listing && f.name !in s.applied)
            && Marks(d.history) == Marks(s.history) + Names(pending[..Reached(pending, fault)])
            && (ok <==> Reached(pending, fault) == |pending|)
  {
    var files := Sorted(listing);
    SortedSorts(listing);
    PendingIs(files, s.applied);
    var pending := Pending(files, s.applied);
    PendingRecordsPrefix(s, pending, fault);
    if files == [] {
      assert pending == [] && Names(pending[..0]) == [];
    }
  }

  lemma RunKeeps(s: State, listing: seq<File>, fault: Fault)
    requires Inv(s) && Distinct(listing)
    ensures Inv(RunOnce(s, listing, fault).0)
    ensures s.applied <= RunOnce(s, listing, fault).0.applied
    ensures RunOnce(s, listing, fault).1 ==> forall f :: f in listing ==> f.name in RunOnce(s, listing, fault).0.applied
  {
    var files := Sorted(listing);
    SortedSorts(listing);
    OrderIsDistinct(files);
    if files == [] {
    } else if s.applied == {} {
      BaselineKeeps(s, files);
    } else {
      var pending := Pending(files, s.applied);
      PendingIs(files, s.applied);
      OrderIsDistinct(pending);
      PendingKeeps(s, pending, fault);
      PendingRecordsPrefix(s, pending, fault);
      forall f | f in listing && RunOnce(s, listing, fault).1
        ensures f.name in RunOnce(s, listing, fault).0.applied
      {
        if f.name !in s.applied {
          assert f in pending && pending[..|pending|] == pending;
        }
      }
    }
  }

  // ---------------------------------------------------------------- over restarts

  datatype Start = Start(listing: seq<File>, fault: Fault)

  /** Any sequence of starts of the program, each with its directory and its fault. */
  function RunAll(s: State, starts: seq<Start>): (after: State) {
    if starts == [] then s
    else
      var last := starts[|starts| - 1];
      RunOnce(RunAll(s, starts[..|starts| - 1]), last.listing, last.fault).0
  }

  const FRESH := State({}, [])

  lemma {:induction false} EveryStartKeeps(starts: seq<Start>)
    requires forall i :: 0 <= i < |starts| ==> Distinct(starts[i].listing)
    ensures Inv(RunAll(FRESH, starts))
  {
    if starts != [] {
      var last := starts[|starts| - 1];
      EveryStartKeeps(starts[..|starts| - 1]);
      RunKeeps(RunAll(FRESH, starts[..|starts| - 1]), last.listing, last.fault);
    }
  }

  /** Over any sequence of starts, faults included: a file is recorded only right after all of its
      statements ran, nothing of it runs again once it is recorded, and no statement of a baseline file
      ever runs, before or after. */
  lemma RunOnceOnly(starts: seq<Start>, i: nat, j: nat)
    requires forall k :: 0 <= k < |starts| ==> Distinct(starts[k].listing)
    requires var history := RunAll(FRESH, starts).history; i < |history| && j < |history| && i != j
    ensures var history := RunAll(FRESH, starts).history;
            && Whole(history, i)
            && (history[i].Marks() && i < j ==> history[j].name != history[i].name)
            && (history[i].Baselined? && history[j].Ran? ==> history[j].name != history[i].name)
            && (history[i].Marks() ==> history[i].name in RunAll(FRESH, starts).applied)
  {
    EveryStartKeeps(starts);
    var d := RunAll(FRESH, starts);
    if d.history[i].Marks() {
      assert MarkedIn(d.history, d.history[i].name);
    }
  }

  lemma {:induction false} AppliedGrows(starts: seq<Start>, n: nat)
    requires n <= |starts| && forall k :: 0 <= k < |starts| ==> Distinct(starts[k].listing)
    ensures RunAll(FRESH, starts[..n]).applied <= RunAll(FRESH, starts).applied
  {
    if n < |starts| {
      var early := starts[..|starts| - 1];
      AppliedGrows(early, n);
      assert early[..n] == starts[..n];
      EveryStartKeeps(early);
      RunKeeps(RunAll(FRESH, early), starts[|starts| - 1].listing, starts[|starts| - 1].fault);
    } else {
      assert starts[..n] == starts;
    }
  }

  /** Every file an earlier start saw is still in the directory of start `n`. */
  ghost predicate Grown(starts: seq<Start>, n: nat)
    requires n < |starts|
  {
    forall k, f :: 0 <= k <= n && f in starts[k].listing ==> HasName(starts[n].listing, f.name)
  }

  ghost predicate HasName(listing: seq<File>, name: string) {
    exists f :: f in listing && f.name == name
  }

  lemma NormalEndRecords(starts: seq<Start>, n: nat, name: string)
    requires n < |starts| && forall k :: 0 <= k < |starts| ==> Distinct(starts[k].listing)
    requires RunOnce(RunAll(FRESH, starts[..n]), starts[n].listing, starts[n].fault).1
    requires HasName(starts[n].listing, name)
    ensures name in RunAll(FRESH, starts[..n + 1]).applied
  {
    assert starts[..n + 1][..n] == starts[..n] && starts[..n + 1][n] == starts[n];
    EveryStartKeeps(starts[..n]);
    RunKeeps(RunAll(FRESH, starts[..n]), starts[n].listing, starts[n].fault);
  }

  /** A start that ends normally has recorded every file of its directory, and on a growing directory
      every file there ever was; it stays recorded whatever starts follow. */
  lemma NormalEndRecordsAll(starts: seq<Start>, n: nat, k: nat, f: File)
    requires n < |starts| && forall i :: 0 <= i < |starts| ==> Distinct(starts[i].listing)
    requires RunOnce(RunAll(FRESH, starts[..n]), starts[n].listing, starts[n].fault).1
    requires Grown(starts, n) && k <= n && f in starts[k].listing
    ensures f.name in RunAll(FRESH, starts).applied
  {
    NormalEndRecords(starts, n, f.name);
    AppliedGrows(starts, n + 1);
  }

  // ---------------------------------------------------------------- which files a start runs

  /** Files run and recorded, one after another. */
  function Executed(files: seq<File>): (entries: seq<Entry>) {
    if files == [] then []
    else FileEntries(files[0]) + Executed(files[1..])
  }

  function Baselines(files: seq<File>): (entries: seq<Entry>) {
    seq(|files|, i requires 0 <= i < |files| => Baselined(files[i].name))
  }

  /** The statements of the file a run breaks at that still went through. */
  function Broken(files: seq<File>, k: nat, fault: Fault): (entries: seq<Entry>)
    requires k < |files| ==> Breaks(files[k], fault)
  {
    if k < |files| then Rans(files[k].name, Statements(files[k].text)[..fault.after]) else []
  }

  /** What a run with `k` files reached appends. */
  function PendingEntries(files: seq<File>, k: nat, fault: Fault): (entries: seq<Entry>)
    requires k <= |files| && (k < |files| ==> Breaks(files[k], fault))
  {
    Executed(files[..k]) + Broken(files, k, fault)
  }

  function FileEntries(file: File): (entries: seq<Entry>) {
    Rans(file.name, Statements(file.text)) + [Recorded(file.name, file.text)]
  }

  lemma FirstEntries(files: seq<File>, k: nat, fault: Fault)
    requires 0 < k <= |files| && (k < |files| ==> Breaks(files[k], fault))
    ensures k - 1 < |files[1..]| ==> Breaks(files[1..][k - 1], fault)
    ensures PendingEntries(files, k, fault) == FileEntries(files[0]) + PendingEntries(files[1..], k - 1, fault)
  {
    var first, later := FileEntries(files[0]), Executed(files[1..][..k - 1]);
    assert files[..k][1..] == files[1..][..k - 1];
    assert Executed(files[..k]) == first + later;
    assert Broken(files, k, fault) == Broken(files[1..], k - 1, fault);
    Regroup(first, later, Broken(files, k, fault));
  }

  lemma Regroup<T>(a: seq<T>, b: seq<T>, c: seq<T>)
    ensures (a + b) + c == a + (b + c)
  {
  }

  lemma {:induction false} PendingAppends(s: State, files: seq<File>, fault: Fault)
    ensures RunPending(s, files, fault).0.history == s.history + PendingEntries(files, Reached(files, fault), fault)
    decreases |files|
  {
    var k := Reached(files, fault);
    if files == [] || Breaks(files[0], fault) {
      assert Executed(files[..k]) == [];
      assert PendingEntries(files, k, fault) == Broken(files, k, fault);
    } else {
      FirstEntries(files, k, fault);
      PendingAppends(RunFile(s, files[0], fault), files[1..], fault);
      FileAppends(s, files[0], fault);
      Regroup(s.history, FileEntries(files[0]), PendingEntries(files[1..], k - 1, fault));
    }
  }

  lemma FileAppends(s: State, file: File, fault: Fault)
    requires !Breaks(file, fault)
    ensures RunFile(s, file, fault).history == s.history + FileEntries(file)
  {
    Regroup(s.history, Rans(file.name, Statements(file.text)), [Recorded(file.name, file.text)]);
  }

  lemma {:induction false} BaselineAppends(s: State, files: seq<File>)
    ensures Baseline(s, files).history == s.history + Baselines(files)
    decreases |files|
  {
    if files != [] {
      BaselineAppends(State(s.applied + {files[0].name}, s.history + [Baselined(files[0].name)]), files[1..]);
      assert Baselines(files) == [Baselined(files[0].name)] + Baselines(files[1..]);
    }
  }

  /** What one start adds to the history, fault included. */
  function Appended(s: State, listing: seq<File>, fault: Fault): (entries: seq<Entry>) {
    if s.applied == {} then
      if fault.BaselineBreaks? then [] else Baselines(Sorted(listing))
    else
      var pending := Pending(Sorted(listing), s.applied);
      PendingEntries(pending, Reached(pending, fault), fault)
  }

  lemma RunAppends(s: State, listing: seq<File>, fault: Fault)
    ensures RunOnce(s, listing, fault).0.history == s.history + Appended(s, listing, fault)
  {
    var files := Sorted(listing);
    if s.applied == {} {
      BaselineAppends(s, files);
    } else {
      PendingAppends(s, Pending(files, s.applied), fault);
    }
  }

  lemma {:induction false} ExecutedRecords(files: seq<File>, entry: Entry)
    ensures !entry.Ran? ==> (entry in Executed(files) <==> exists f :: f in files && entry == Recorded(f.name, f.text))
    decreases |files|
  {
    if files != [] {
      ExecutedRecords(files[1..], entry);
      assert files == [files[0]] + files[1..];
    }
  }

  /** A start runs and records a file if and only if something was recorded before it and the file is
      pending and reached; it takes the file for applied without running it if and only if nothing was. */
  lemma FileIsRunExactlyWhen(s: State, listing: seq<File>, fault: Fault, file: File)
    requires Distinct(listing) && file in listing
    ensures var pending := Pending(Sorted(listing), s.applied); var added := Appended(s, listing, fault);
            && (Recorded(file.name, file.text) in added <==>
                  s.applied != {} && file in pending[..Reached(pending, fault)])
            && (Baselined(file.name) in added <==> s.applied == {} && !fault.BaselineBreaks?)
  {
    SortedSorts(listing);
    if s.applied == {} {
      var files := Sorted(listing);
      var i :| 0 <= i < |files| && files[i] == file;
      assert Baselines(files)[i] == Baselined(file.name);
    } else {
      var pending := Pending(Sorted(listing), s.applied);
      var k := Reached(pending, fault);
      ExecutedRecords(pending[..k], Recorded(file.name, file.text));
      ExecutedRecords(pending[..k], Baselined(file.name));
      RecordedOnce(s, listing, fault, file);
    }
  }

  /** Two pending files never share a name and text. */
  lemma RecordedOnce(s: State, listing: seq<File>, fault: Fault, file: File)
    requires Distinct(listing)
    ensures var pending := Pending(Sorted(listing), s.applied);
            forall f :: f in pending && f.name == file.name && f.text == file.text ==> f == file
  {
  }

  function EmptyThenOne(file: File): (starts: seq<Start>) {
    [Start([], NoFault), Start([file], NoFault)]
  }

  /** The database is new, the first start finds no file, the second start finds the first one: it is taken
      for applied without being run. */
  lemma FirstFileIsBaselined(file: File)
    ensures RunAll(FRESH, EmptyThenOne(file)).history == [Baselined(file.name)]
  {
    var starts := EmptyThenOne(file);
    assert starts[..1] == [Start([], NoFault)] && starts[..1][..0] == [];
    assert RunAll(FRESH, starts[..1]) == FRESH;
    assert [file][1..] == [] && Sorted([file]) == [file];
    RunAppends(FRESH, [file], NoFault);
    assert RunAll(FRESH, starts) == RunOnce(FRESH, [file], NoFault).0;
  }

  /** ... and none of its statements runs in any later start. */
  lemma FirstFileIsNeverRun(file: File, later: seq<Start>, i: nat)
    requires forall k :: 0 <= k < |later| ==> Distinct(later[k].listing)
    requires i < |RunAll(FRESH, EmptyThenOne(file) + later).history|
    ensures var history := RunAll(FRESH, EmptyThenOne(file) + later).history;
            !(history[i].Ran? && history[i].name == file.name)
  {
    var starts := EmptyThenOne(file) + later;
    assert starts[..2] == EmptyThenOne(file);
    FirstFileIsBaselined(file);
    HistoryGrows(starts, 2);
    EveryStartKeeps(starts);
    var history := RunAll(FRESH, starts).history;
    assert [Baselined(file.name)] <= history;
    assert history[0] == Baselined(file.name);
  }

  lemma {:induction false} HistoryGrows(starts: seq<Start>, n: nat)
    requires n <= |starts|
    ensures RunAll(FRESH, starts[..n]).history <= RunAll(FRESH, starts).history
  {
    if n < |starts| {
      var early := starts[..|starts| - 1];
      HistoryGrows(early, n);
      assert early[..n] == starts[..n];
      var last := starts[|starts| - 1];
      RunAppends(RunAll(FRESH, early), last.listing, last.fault);
      assert RunAll(FRESH, starts) == RunOnce(RunAll(FRESH, early), last.listing, last.fault).0;
    } else {
      assert starts[..n] == starts;
    }
  }
}
