/**
 The interactive command loop of `main`: each iteration prints the prompt,
 reads one line, trims it and dispatches on it to create, open, list,
 delete, exit or "Invalid command". Standard input is the sequence of
 values bufio.Reader.ReadString('\n') returns, one per read (the empty
 string once input is exhausted, since the read error is ignored);
 standard output is the sequence of chunks printed. The store statements,
 os.Chdir and the `code .` launch are external: an Oracle says, for each
 iteration, which of them fail and with what message.
 */
module CommandLoop {
  import opened Wrappers
  import opened Text
  import opened Store

  /** The outcome of the external calls of one iteration: None when the
      call succeeds, otherwise the text of its error. */
  datatype Oracle = Oracle(store: Option<string>, chdir: Option<string>, editor: Option<string>)

  /** The five command words and the default branch. */
  datatype Command = Create | Open | List | Delete | Exit | Unknown

  /** An external call made by `open`, in the order made. */
  datatype Call = ChangeDir(path: string) | RunEditor

  /** The branch `open` ended in. */
  datatype OpenOutcome =
    | OpenBadId
    | NotFound
    | OpenReadFailed(message: string)
    | ChdirFailed(dir: string, message: string)
    | EditorRun(dir: string, failure: Option<string>)

  /** The branch `delete` ended in. */
  datatype DeleteOutcome = DeleteBadId | Deleted(count: int) | DeleteFailed(message: string)

  const Prompt := "command> "
  const NamePrompt := "project name: "
  const PathPrompt := "project path: "
  const IdPrompt := "project ID: "
  const Header := "ID\tName\tPath\n"

  function Keyword(c: Command): string
    requires c != Unknown
  {
    match c
    case Create => "create"
    case Open => "open"
    case List => "list"
    case Delete => "delete"
    case Exit => "exit"
  }

  /** The switch on the trimmed command line: a command is selected only by
      its own word, exactly; everything else is the default branch. */
  function Dispatch(command: string): (c: Command)
    ensures c != Unknown ==> Keyword(c) == command
  {
    if command == "create" then Create
    else if command == "open" then Open
    else if command == "list" then List
    else if command == "delete" then Delete
    else if command == "exit" then Exit
    else Unknown
  }

  /** Every command word selects its command. */
  lemma DispatchKeyword(c: Command)
    requires c != Unknown
    ensures Dispatch(Keyword(c)) == c
  {
  }

  /** A command word typed with white space around it selects the same
      branch as the bare word. */
  lemma DispatchPadded(pre: string, word: string, post: string)
    requires AllIn(pre, Whitespace) && AllIn(post, Whitespace) && Bare(word, Whitespace)
    ensures Dispatch(TrimSpace(pre + word + post)) == Dispatch(word)
  {
    TrimUnique(pre, word, post, Whitespace);
  }

  /** What the next ReadString returns: the next line, or "" at end of input. */
  function NextLine(input: seq<string>): string
  {
    if input == [] then "" else input[0]
  }

  /** The input left after one ReadString. */
  function Rest(input: seq<string>): (r: seq<string>)
    ensures |r| <= |input| && r == input[|input| - |r|..]
  {
    if input == [] then [] else input[1..]
  }

  /** The text of a store error as err.Error() gives it. */
  function ErrorText(e: StoreError): string
  {
    match e
    case DriverError(m) => m
    case Full => "database or disk is full"
  }

  /** fmt.Println(prefix, detail): the two operands separated by a space, then a newline. */
  function Println2(prefix: string, detail: string): string
  {
    prefix + " " + detail + "\n"
  }

  /** What `create` prints after its prompts. */
  function CreateReport(r: Result<int, StoreError>): string
  {
    match r
    case Success(id) => "Project created with ID: " + FormatInt(id) + "\n"
    case Failure(e) => Println2("Error inserting project:", ErrorText(e))
  }

  /** The branch `open` takes for an id that parsed: a read error, no such
      row, or the row's path with its quotes stripped, then the directory
      change and, only when that succeeded, the editor. */
  function OpenOutcomeOf(id: int, o: Oracle, rows: map<int, Project>): OpenOutcome
  {
    if o.store.Some? then OpenReadFailed(o.store.value)
    else if id !in rows then NotFound
    else
      var dir := TrimQuotes(rows[id].path);
      if o.chdir.Some? then ChdirFailed(dir, o.chdir.value) else EditorRun(dir, o.editor)
  }

  /** What `open` prints after its prompt. */
  function OpenReport(res: OpenOutcome): seq<string>
  {
    match res
    case OpenBadId => ["Invalid ID format\n"]
    case NotFound => ["Project not found\n"]
    case OpenReadFailed(m) => [Println2("Error fetching project:", m)]
    case ChdirFailed(d, m) => [Println2("Changing to project path:", d), Println2("Error changing directory:", m)]
    case EditorRun(d, None) => [Println2("Changing to project path:", d)]
    case EditorRun(d, Some(m)) => [Println2("Changing to project path:", d), Println2("Error opening project with editor:", m)]
  }

  /** The external calls `open` makes: the directory change once a project
      was found, the editor only after a successful directory change. */
  function OpenCalls(res: OpenOutcome): seq<Call>
  {
    match res
    case ChdirFailed(d, _) => [ChangeDir(d)]
    case EditorRun(d, _) => [ChangeDir(d), RunEditor]
    case _ => []
  }

  /** `open` changes directory only once a project was found, always into
      its quote-stripped path, and launches the editor exactly when that
      change succeeded. */
  lemma OpenCallsOrder(id: int, o: Oracle, rows: map<int, Project>)
    ensures var calls := OpenCalls(OpenOutcomeOf(id, o, rows));
      && (calls != [] <==> o.store.None? && id in rows)
      && (calls != [] ==> calls[0] == ChangeDir(TrimQuotes(rows[id].path)))
      && (RunEditor in calls <==> o.store.None? && id in rows && o.chdir.None?)
  {
  }

  /** What `delete` prints after its prompt. */
  function DeleteReport(res: DeleteOutcome): seq<string>
  {
    match res
    case DeleteBadId => ["Invalid ID format\n"]
    case _ => [DeleteMessage(res)]
  }

  /** The line `delete` prints once the id parsed. */
  function DeleteMessage(res: DeleteOutcome): string
  {
    match res
    case Deleted(n) => FormatInt(n) + " project(s) deleted\n"
    case DeleteFailed(m) => Println2("Error deleting project:", m)
    case DeleteBadId => "Invalid ID format\n"
  }

  /** One line of `list`: id, name and path separated by tabs. */
  function RowLine(p: Project): string
  {
    FormatInt(p.id) + "\t" + p.name + "\t" + p.path + "\n"
  }

  /** The lines `list` prints for the rows ps: the lines of all rows but
      the last, then the line of the last. */
  function RowLines(ps: seq<Project>): (lines: seq<string>)
    ensures |lines| == |ps|
  {
    if ps == [] then [] else RowLines(ps[..|ps| - 1]) + [RowLine(ps[|ps| - 1])]
  }

  lemma RowLinesSnoc(ps: seq<Project>, i: nat)
    requires i < |ps|
    ensures RowLines(ps[..i + 1]) == RowLines(ps[..i]) + [RowLine(ps[i])]
  {
    assert ps[..i + 1][..i] == ps[..i];
  }

  /** How the table may change over any run of the loop: the sequence
      never goes back, an issued id stays issued, a row that survives keeps
      its name and path, a row that appears has an id above every id issued
      before, and an id whose row was deleted never has a row again. */
  ghost predicate Evolves(t0: Snapshot, t1: Snapshot)
  {
    && t0.lastId <= t1.lastId
    && t0.issued <= t1.issued
    && (forall id :: id in t1.rows && id in t0.rows ==> t1.rows[id] == t0.rows[id])
    && (forall id :: id in t1.rows && id !in t0.rows ==> t0.lastId < id)
    && (forall id :: id in t0.issued && id !in t0.rows ==> id !in t1.rows)
  }

  /** Evolves composes: a run of iterations evolves the table as one does. */
  lemma EvolvesTransitive(t0: Snapshot, t1: Snapshot, t2: Snapshot)
    requires Evolves(t0, t1) && Evolves(t1, t2)
    requires t0.rows.Keys <= t0.issued
    ensures Evolves(t0, t2)
  {
    forall id | id in t2.rows && id in t0.rows
      ensures t2.rows[id] == t0.rows[id]
    {
      assert id in t0.issued;
      assert id in t1.rows;
    }
  }

  /** A moment of a run: what is left of the input, what has been printed,
      the external calls made so far, and the table. */
  datatype Moment = Moment(input: seq<string>, out: seq<string>, calls: seq<Call>, table: Snapshot)

  /** A trace of moments whose tables are each consistent (every stored
      row's id issued), any later one evolved from any earlier one. */
  ghost predicate Chain(trace: seq<Moment>)
  {
    && (forall i :: 0 <= i < |trace| ==> trace[i].table.rows.Keys <= trace[i].table.issued)
    && (forall i, j :: 0 <= i <= j < |trace| ==> Evolves(trace[i].table, trace[j].table))
  }

  /** A chain stays one when a moment whose table is consistent and evolves
      from the last one's is appended. */
  lemma ChainExtend(trace: seq<Moment>, m: Moment)
    requires trace != [] && Chain(trace)
    requires m.table.rows.Keys <= m.table.issued && Evolves(trace[|trace| - 1].table, m.table)
    ensures Chain(trace + [m])
  {
    var longer := trace + [m];
    forall i, j | 0 <= i <= j < |longer|
      ensures Evolves(longer[i].table, longer[j].table)
    {
      if j == |trace| && i < j {
        EvolvesTransitive(trace[i].table, trace[|trace| - 1].table, m.table);
      }
    }
  }

  /** Along a chain, an id that was issued and has no row at some moment
      has no row at any later moment: ids are never handed out twice. */
  lemma DeletedStaysDeleted(trace: seq<Moment>, i: nat, j: nat, id: int)
    requires Chain(trace) && i <= j < |trace|
    requires id in trace[i].table.issued && id !in trace[i].table.rows
    ensures id !in trace[j].table.rows
  {
  }

  /** What `create` does after the command line: both prompts, two lines
      read and trimmed, one INSERT, and the report. On success the trimmed
      name and path are the only new row, under the next sequence value; on
      failure the table is as it was. */
  ghost predicate CreateEffect(o: Oracle, in0: seq<string>, out0: seq<string>, t0: Snapshot,
                               r: Result<int, StoreError>, in1: seq<string>, out1: seq<string>, t1: Snapshot)
  {
    && in1 == Rest(Rest(in0))
    && out1 == out0 + [NamePrompt, PathPrompt, CreateReport(r)]
    && (o.store.Some? ==> r == Failure(DriverError(o.store.value)))
    && (o.store.None? && t0.lastId == MaxRowId ==> r == Failure(Full))
    && (o.store.None? && t0.lastId < MaxRowId ==> r == Success(t0.lastId + 1))
    && (r.Failure? ==> t1 == t0)
    && (r.Success? ==>
          && (forall id :: id in t0.issued ==> id < r.value)
          && r.value !in t0.rows
          && t1.rows == t0.rows[r.value := Project(r.value, TrimSpace(NextLine(in0)), TrimSpace(NextLine(Rest(in0))))]
          && t1.lastId == r.value
          && t1.issued == t0.issued + {r.value})
  }

  /** What `open` does after the command line: the id prompt, one line read
      and parsed, and the branch OpenOutcomeOf selects, with its lines and
      its external calls. */
  ghost predicate OpenEffect(o: Oracle, in0: seq<string>, out0: seq<string>, calls0: seq<Call>,
                             rows: map<int, Project>,
                             res: OpenOutcome, in1: seq<string>, out1: seq<string>, calls1: seq<Call>)
  {
    && in1 == Rest(in0)
    && out1 == out0 + [IdPrompt] + OpenReport(res)
    && calls1 == calls0 + OpenCalls(res)
    && var id := Atoi(TrimSpace(NextLine(in0)));
       && (id.None? ==> res == OpenBadId)
       && (id.Some? ==> res == OpenOutcomeOf(id.value, o, rows))
  }

  /** What `list` does after the command line: the error line, or the
      header and one line per row of a listing of the whole table. */
  ghost predicate ListEffect(o: Oracle, out0: seq<string>, rows: map<int, Project>,
                             r: Result<seq<Project>, StoreError>, out1: seq<string>)
  {
    && (o.store.Some? ==>
          r == Failure(DriverError(o.store.value)) && out1 == out0 + [Println2("Error fetching projects:", o.store.value)])
    && (o.store.None? ==>
          r.Success? && IsListing(r.value, rows) && out1 == out0 + [Header] + RowLines(r.value))
  }

  /** What `delete` does after the command line: the id prompt, one line
      read and parsed, at most one row removed, and the report. */
  ghost predicate DeleteEffect(o: Oracle, in0: seq<string>, out0: seq<string>, t0: Snapshot,
                               res: DeleteOutcome, in1: seq<string>, out1: seq<string>, t1: Snapshot)
  {
    && in1 == Rest(in0)
    && out1 == out0 + [IdPrompt] + DeleteReport(res)
    && t1.lastId == t0.lastId && t1.issued == t0.issued
    && var id := Atoi(TrimSpace(NextLine(in0)));
       && (id.None? ==> res == DeleteBadId && t1.rows == t0.rows)
       && (id.Some? && o.store.Some? ==> res == DeleteFailed(o.store.value) && t1.rows == t0.rows)
       && (id.Some? && o.store.None? ==>
             && res == Deleted(if id.value in t0.rows then 1 else 0)
             && t1.rows == t0.rows - {id.value})
  }

  /** The branch one iteration took, with what that branch produced. */
  datatype Outcome =
    | Created(createResult: Result<int, StoreError>)
    | Opened(openOutcome: OpenOutcome)
    | Shown(listResult: Result<seq<Project>, StoreError>)
    | Removed(deleteOutcome: DeleteOutcome)
    | Ended
    | Rejected

  function CommandOf(res: Outcome): Command
  {
    match res
    case Created(_) => Create
    case Opened(_) => Open
    case Shown(_) => List
    case Removed(_) => Delete
    case Ended => Exit
    case Rejected => Unknown
  }

  /** The loop ran until `exit` and no further: no iteration but the last
      took the `exit` branch, and the loop has ended exactly when the last
      one did. */
  ghost predicate StopsAtExit(outcomes: seq<Outcome>, exited: bool)
  {
    && (forall k :: 0 <= k < |outcomes| - 1 ==> outcomes[k] != Ended)
    && (exited <==> outcomes != [] && outcomes[|outcomes| - 1] == Ended)
  }

  lemma StopsAtExitSnoc(outcomes: seq<Outcome>, res: Outcome)
    requires StopsAtExit(outcomes, false)
    ensures StopsAtExit(outcomes + [res], res == Ended)
  {
  }

  /** One iteration of the loop from moment `m0` to moment `m1`, with
      outcome `res`: the prompt is printed, the branch taken is the one the
      trimmed line selects, and after the prompt it has exactly the effect
      of that command. Only `create` and `delete` change the table, only
      `open` makes external calls, and the table only evolves as Evolves
      allows. */
  ghost predicate StepSpec(o: Oracle, m0: Moment, res: Outcome, m1: Moment)
  {
    && CommandOf(res) == Dispatch(TrimSpace(NextLine(m0.input)))
    && (m0.input == [] ==> res == Rejected)
    && Evolves(m0.table, m1.table)
    && (!res.Created? && !res.Removed? ==> m1.table == m0.table)
    && (!res.Opened? ==> m1.calls == m0.calls)
    && (res.Created? ==>
          CreateEffect(o, Rest(m0.input), m0.out + [Prompt], m0.table, res.createResult, m1.input, m1.out, m1.table))
    && (res.Opened? ==>
          OpenEffect(o, Rest(m0.input), m0.out + [Prompt], m0.calls, m0.table.rows, res.openOutcome,
                     m1.input, m1.out, m1.calls))
    && (res.Shown? ==> m1.input == Rest(m0.input) && ListEffect(o, m0.out + [Prompt], m0.table.rows, res.listResult, m1.out))
    && (res.Removed? ==>
          DeleteEffect(o, Rest(m0.input), m0.out + [Prompt], m0.table, res.deleteOutcome, m1.input, m1.out, m1.table))
    && (res == Ended ==> m1.input == Rest(m0.input) && m1.out == m0.out + [Prompt])
    && (res == Rejected ==> m1.input == Rest(m0.input) && m1.out == m0.out + [Prompt, "Invalid command\n"])
  }

  /** A record of a run: iteration `k`, with oracle `k` and outcome `k`,
      went from moment `k` to moment `k + 1` as StepSpec says. */
  ghost predicate Replays(oracles: seq<Oracle>, outcomes: seq<Outcome>, trace: seq<Moment>)
  {
    && |outcomes| <= |oracles|
    && |trace| == |outcomes| + 1
    && forall k :: 0 <= k < |outcomes| ==> StepSpec(oracles[k], trace[k], outcomes[k], trace[k + 1])
  }

  /** One more iteration that starts at the last moment of the record
      extends the record. */
  lemma ReplaysExtend(oracles: seq<Oracle>, outcomes: seq<Outcome>, trace: seq<Moment>, res: Outcome, m: Moment)
    requires Replays(oracles, outcomes, trace) && |outcomes| < |oracles|
    requires StepSpec(oracles[|outcomes|], trace[|outcomes|], res, m)
    ensures Replays(oracles, outcomes + [res], trace + [m])
  {
    var outcomes', trace' := outcomes + [res], trace + [m];
    forall k | 0 <= k < |outcomes'|
      ensures StepSpec(oracles[k], trace'[k], outcomes'[k], trace'[k + 1])
    {
      if k < |outcomes| {
        assert trace'[k] == trace[k] && outcomes'[k] == outcomes[k] && trace'[k + 1] == trace[k + 1];
      }
    }
  }

  /** In a recorded run that stopped at its own pace, the loop ended exactly
      at an iteration whose line trims to `exit`: no earlier line did, and
      the run ended iff the last one did. */
  lemma EndsAtExitLine(oracles: seq<Oracle>, outcomes: seq<Outcome>, trace: seq<Moment>, exited: bool)
    requires Replays(oracles, outcomes, trace) && StopsAtExit(outcomes, exited)
    ensures forall k :: 0 <= k < |outcomes| - 1 ==> TrimSpace(NextLine(trace[k].input)) != "exit"
    ensures exited <==> outcomes != [] && TrimSpace(NextLine(trace[|outcomes| - 1].input)) == "exit"
  {
    forall k | 0 <= k < |outcomes|
      ensures outcomes[k] == Ended <==> TrimSpace(NextLine(trace[k].input)) == "exit"
    {
      assert StepSpec(oracles[k], trace[k], outcomes[k], trace[k + 1]);
    }
  }

  /** The running program: the project table, what is left of standard
      input, what has been printed, the external calls made, and whether
      `exit` has ended the loop. */
  class Session {
    const table: ProjectTable
    var input: seq<string>
    var out: seq<string>
    var calls: seq<Call>
    var exited: bool

    ghost predicate Valid()
      reads table
    {
      table.Valid()
    }

    /** The current moment of the session. */
    ghost function Now(): Moment
      reads this, table
    {
      Moment(input, out, calls, table.State())
    }

    constructor (t: ProjectTable, stdin: seq<string>)
      requires t.Valid()
      ensures Valid()
      ensures table == t && input == stdin && out == [] && calls == [] && !exited
    {
      table := t;
      input := stdin;
      out := [];
      calls := [];
      exited := false;
    }

    /** reader.ReadString('\n') with its error ignored. */
    method ReadLine() returns (line: string)
      modifies this`input
      ensures line == NextLine(old(input)) && input == Rest(old(input))
    {
      if input == [] {
        line := "";
      } else {
        line := input[0];
        input := input[1..];
      }
    }

    /** fmt.Print / fmt.Println / fmt.Printf of one finished chunk. */
    method Write(s: string)
      modifies this`out
      ensures out == old(out) + [s]
    {
      out := out + [s];
    }

    /** `create`: read and trim the name and the path, insert them, report
        the assigned id or the error. */
    method CreateCommand(o: Oracle) returns (r: Result<int, StoreError>)
      requires Valid()
      modifies this`input, this`out, table
      ensures Valid()
      ensures CreateEffect(o, old(input), old(out), old(table.State()), r, input, out, table.State())
      ensures Evolves(old(table.State()), table.State())
    {
      ghost var out0 := out;
      Write(NamePrompt);
      var name := ReadLine();
      name := TrimSpace(name);
      Write(PathPrompt);
      var path := ReadLine();
      path := TrimSpace(path);
      r := table.Insert(name, path, o.store);
      Write(CreateReport(r));
      assert out == out0 + [NamePrompt, PathPrompt, CreateReport(r)];
    }

    /** The id prompt shared by `open` and `delete`: read a line, trim it,
        parse it; an id that does not parse is reported here, before the
        store is touched. */
    method ReadId() returns (id: Option<int>)
      modifies this`input, this`out
      ensures input == Rest(old(input))
      ensures id == Atoi(TrimSpace(NextLine(old(input))))
      ensures out == old(out) + [IdPrompt] + (if id.None? then ["Invalid ID format\n"] else [])
    {
      Write(IdPrompt);
      var idText := ReadLine();
      idText := TrimSpace(idText);
      id := Atoi(idText);
      if id.None? {
        Write("Invalid ID format\n");
      }
    }

    /** `open`: read and parse the id, fetch the project, strip quotes from
        a local copy of its path, change into it and, only if that worked,
        launch the editor. The table is only read. */
    method OpenCommand(o: Oracle) returns (res: OpenOutcome)
      requires Valid()
      modifies this`input, this`out, this`calls
      ensures Valid() && unchanged(table)
      ensures OpenEffect(o, old(input), old(out), old(calls), table.rows, res, input, out, calls)
    {
      var id := ReadId();
      if id.None? {
        return OpenBadId;
      }
      res := OpenProject(id.value, o);
      assert old(out) + [IdPrompt] + [] + OpenReport(res) == old(out) + [IdPrompt] + OpenReport(res);
    }

    /** The part of `open` after the id parsed. */
    method OpenProject(id: int, o: Oracle) returns (res: OpenOutcome)
      requires Valid()
      modifies this`out, this`calls
      ensures res == OpenOutcomeOf(id, o, table.rows)
      ensures out == old(out) + OpenReport(res)
      ensures calls == old(calls) + OpenCalls(res)
    {
      ghost var out0 := out;
      var row := table.Fetch(id, o.store);
      if row == Failure(NoRows) {
        Write("Project not found\n");
        return NotFound;
      } else if row.Failure? {
        Write(Println2("Error fetching project:", row.error.message));
        return OpenReadFailed(row.error.message);
      }
      var dir := row.value.path;
      dir := TrimQuotes(dir);
      Write(Println2("Changing to project path:", dir));
      calls := calls + [ChangeDir(dir)];
      if o.chdir.Some? {
        Write(Println2("Error changing directory:", o.chdir.value));
        assert out == out0 + [Println2("Changing to project path:", dir), Println2("Error changing directory:", o.chdir.value)];
        return ChdirFailed(dir, o.chdir.value);
      }
      calls := calls + [RunEditor];
      if o.editor.Some? {
        Write(Println2("Error opening project with editor:", o.editor.value));
        assert out == out0 + [Println2("Changing to project path:", dir), Println2("Error opening project with editor:", o.editor.value)];
      }
      res := EditorRun(dir, o.editor);
    }

    /** `list`: the header, then one line per row as the cursor returns
        them. The table is only read. */
    method ListCommand(o: Oracle) returns (r: Result<seq<Project>, StoreError>)
      requires Valid()
      modifies this`out
      ensures Valid()
      ensures ListEffect(o, old(out), table.rows, r, out)
    {
      r := table.SelectAll(o.store);
      if r.Failure? {
        Write(Println2("Error fetching projects:", ErrorText(r.error)));
        return;
      }
      Write(Header);
      WriteRows(r.value);
    }

    /** The cursor loop of `list`: one line per row, in the order given. */
    method WriteRows(ps: seq<Project>)
      modifies this`out
      ensures out == old(out) + RowLines(ps)
    {
      for i := 0 to |ps|
        invariant out == old(out) + RowLines(ps[..i])
      {
        RowLinesSnoc(ps, i);
        Write(RowLine(ps[i]));
      }
      assert ps[..|ps|] == ps;
    }

    /** `delete`: read and parse the id, delete that row, report how many
        rows went. */
    method DeleteCommand(o: Oracle) returns (res: DeleteOutcome)
      requires Valid()
      modifies this`input, this`out, table
      ensures Valid()
      ensures DeleteEffect(o, old(input), old(out), old(table.State()), res, input, out, table.State())
      ensures Evolves(old(table.State()), table.State())
    {
      var id := ReadId();
      if id.None? {
        return DeleteBadId;
      }
      var r := table.Delete(id.value, o.store);
      if r.Failure? {
        res := DeleteFailed(ErrorText(r.error));
      } else {
        res := Deleted(r.value);
      }
      var report := DeleteMessage(res);
      Write(report);
      assert old(out) + [IdPrompt] + [] + [report] == old(out) + [IdPrompt] + DeleteReport(res);
    }

    /** One iteration of the loop: prompt, read, trim, dispatch, with the
        effect StepSpec describes; only `exit` ends the loop. */
    method Step(o: Oracle) returns (res: Outcome)
      requires Valid()
      modifies this`input, this`out, this`calls, this`exited, table
      ensures Valid()
      ensures exited == (old(exited) || res == Ended)
      ensures StepSpec(o, old(Now()), res, Now())
    {
      Write(Prompt);
      var line := ReadLine();
      var command := TrimSpace(line);
      if old(input) == [] {
        EmptyLineIsUnknown();
      }
      res := Execute(Dispatch(command), o);
    }

    /** The branch of the loop body that `c` selects, run after the prompt
        and the command line. */
    method Execute(c: Command, o: Oracle) returns (res: Outcome)
      requires Valid()
      modifies this`input, this`out, this`calls, this`exited, table
      ensures Valid()
      ensures CommandOf(res) == c
      ensures exited == (old(exited) || c == Exit)
      ensures Evolves(old(table.State()), table.State())
      ensures c != Create && c != Delete ==> table.State() == old(table.State())
      ensures c != Open ==> calls == old(calls)
      ensures res.Created? ==>
        CreateEffect(o, old(input), old(out), old(table.State()), res.createResult, input, out, table.State())
      ensures res.Opened? ==>
        OpenEffect(o, old(input), old(out), old(calls), old(table.rows), res.openOutcome, input, out, calls)
      ensures res.Shown? ==> input == old(input) && ListEffect(o, old(out), old(table.rows), res.listResult, out)
      ensures res.Removed? ==>
        DeleteEffect(o, old(input), old(out), old(table.State()), res.deleteOutcome, input, out, table.State())
      ensures res == Ended ==> input == old(input) && out == old(out)
      ensures res == Rejected ==> input == old(input) && out == old(out) + ["Invalid command\n"]
    {
      match c
      case Create =>
        var r := CreateCommand(o);
        res := Created(r);
      case Open =>
        var r := OpenCommand(o);
        res := Opened(r);
      case List =>
        var r := ListCommand(o);
        res := Shown(r);
      case Delete =>
        var r := DeleteCommand(o);
        res := Removed(r);
      case Exit =>
        exited := true;
        res := Ended;
      case Unknown =>
        Write("Invalid command\n");
        res := Rejected;
    }

    /** The `for` loop of `main`, for as many iterations as there are oracle
        entries or until `exit`, which ends it at once. `outcomes` records
        the branch of each iteration and `trace` the session before and
        after each: iteration `k` went from moment `k` to moment `k + 1` as
        StepSpec says with oracle `k`. Between any two moments of the run
        the table evolves as Evolves allows, so no id is ever handed out
        twice, even one issued and deleted during the run. */
    method Run(oracles: seq<Oracle>) returns (outcomes: seq<Outcome>, ghost trace: seq<Moment>)
      requires Valid() && !exited
      modifies this`input, this`out, this`calls, this`exited, table
      ensures Valid()
      ensures Replays(oracles, outcomes, trace)
      ensures trace[0] == old(Now()) && trace[|outcomes|] == Now()
      ensures StopsAtExit(outcomes, exited)
      ensures !exited ==> |outcomes| == |oracles|
      ensures Chain(trace)
    {
      outcomes := [];
      trace := [Now()];
      while |outcomes| < |oracles| && !exited
        invariant Valid()
        invariant Replays(oracles, outcomes, trace)
        invariant trace[0] == old(Now()) && trace[|outcomes|] == Now()
        invariant StopsAtExit(outcomes, exited)
        invariant Chain(trace)
        decreases |oracles| - |outcomes|
      {
        var res := Step(oracles[|outcomes|]);
        ReplaysExtend(oracles, outcomes, trace, res, Now());
        StopsAtExitSnoc(outcomes, res);
        ChainExtend(trace, Now());
        trace := trace + [Now()];
        outcomes := outcomes + [res];
      }
    }
  }

  /** At end of input ReadString yields "", which trims to "" and is no
      command word: the loop prints "Invalid command" and goes on, so it does
      not stop at end of input. */
  lemma EmptyLineIsUnknown()
    ensures Dispatch(TrimSpace(NextLine([]))) == Unknown
  {
    assert TrimLeft("", Whitespace) == "";
  }

  /** Two creates on a fresh table get the ids 1 and 2. */
  method DemoIds(n1: string, p1: string, n2: string, p2: string)
    requires Bare(n1, Whitespace) && Bare(p1, Whitespace) && Bare(n2, Whitespace) && Bare(p2, Whitespace)
  {
    var ok := Oracle(None, None, None);
    var t := new ProjectTable();
    var s := new Session(t, [n1 + "\n", p1 + "\n", n2 + "\n", p2 + "\n"]);
    TrimSpaceLine(n1);
    TrimSpaceLine(p1);
    var r1 := s.CreateCommand(ok);
    assert r1 == Success(1);
    TrimSpaceLine(n2);
    TrimSpaceLine(p2);
    var r2 := s.CreateCommand(ok);
    assert r2 == Success(2);
    assert t.rows == map[1 := Project(1, n1, p1), 2 := Project(2, n2, p2)];
  }

  /** Opening a project whose stored path is quoted changes into the
      unquoted directory and leaves the stored path as it was. */
  method DemoOpen()
  {
    var ok := Oracle(None, None, None);
    var dir := "/tmp/y";
    var path := "\"" + dir + "\"";
    var one := "1";
    var t := new ProjectTable();
    var r := t.Insert("demo", path, None);
    var s := new Session(t, [one + "\n"]);
    TrimSpaceLine(one);
    TrimQuotesKeepsInterior("\"", dir, "\"");
    var o := s.OpenCommand(ok);
    assert o == EditorRun(dir, None);
    assert s.calls == [ChangeDir(dir), RunEditor];
    assert t.rows[1].path == path;
  }

  /** A deleted project is reported once and is not found afterwards. */
  method DemoDelete()
  {
    var ok := Oracle(None, None, None);
    var one := "1";
    var t := new ProjectTable();
    var r := t.Insert("demo", "/tmp/x", None);
    var s := new Session(t, [one + "\n", one + "\n"]);
    TrimSpaceLine(one);
    var d := s.DeleteCommand(ok);
    assert d == Deleted(1);
    var o := s.OpenCommand(ok);
    assert o == NotFound;
  }

  /** An id that does not parse is refused before the table is asked, even
      when the table would fail. */
  method DemoBadId()
  {
    var bad := "x1";
    var t := new ProjectTable();
    var s := new Session(t, [bad + "\n"]);
    TrimSpaceLine(bad);
    var o := s.OpenCommand(Oracle(Some("disk I/O error"), None, None));
    assert o == OpenBadId && s.out == [IdPrompt, "Invalid ID format\n"] && s.calls == [];
  }
}
