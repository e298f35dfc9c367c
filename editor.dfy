/** The score editor held by the `App` component of src/App.js: four pieces
    of state (roster, selection, displayed scores, staged edits) and one
    transition per event. Network calls are events: a response that arrived
    with its data, or a request that failed. The pure step functions below
    are the specification; the class `Editor` updates its fields in place
    the way the component's handlers do and is proved to follow them. */
module ScoreEditor {
  import opened ScoreRecords

  /** The value a NumberInput hands to its onChange handler: its text. It is
      staged verbatim, with no parsing and no range check. */
  type StagedValue = string

  /** The staged edits `scoreHash`: scoreId to pending value. */
  type Stage = map<ScoreId, StagedValue>

  /** The outcome of one HTTP request as the awaiting handler sees it. */
  datatype Response<T> = Arrived(data: T) | Failed

  /** The body of the batch update request: its one field `scores` holds
      the whole stage. */
  datatype PatchBody = PatchBody(scores: Stage)

  /** The four state cells of lines 24-27, as one value. */
  datatype EditorState = EditorState(
    students: seq<Student>,
    selectedStudent: StudentId,
    scores: seq<ScoreEntry>,
    scoreHash: Stage)

  /** The state at mount: no roster, selection 0 (none), no scores, no edits. */
  const Initial := EditorState([], 0, [], map[])

  // ---------------------------------------------------------------------
  // The specification: one step function per event
  // ---------------------------------------------------------------------

  /** The guard of the selection effect: a student's scores are requested
      only for a non-zero selection. */
  function ScoreRequest(selected: StudentId): Option<StudentId>
  {
    if selected != 0 then Some(selected) else None
  }

  /** The selection effect re-runs only when the selection changed; when it
      runs, the guard decides whether a score request is issued. */
  function ScoreRequestAfter(before: StudentId, after: StudentId): Option<StudentId>
  {
    if before == after then None else ScoreRequest(after)
  }

  /** `fetchStudents`: the roster is stored, then the first student's id is
      selected; with an empty roster `data[0].id` throws after the roster
      was stored, and a failed request changes nothing. */
  function RosterArrived(s: EditorState, resp: Response<seq<Student>>): EditorState
  {
    match resp
    case Failed => s
    case Arrived(data) =>
      if |data| == 0 then s.(students := data)
      else s.(students := data, selectedStudent := data[0].id)
  }

  /** `fetchScores`: the flattened response replaces the displayed list; a
      failed request, or a record without a class, leaves it as it was. */
  function ScoresArrived(s: EditorState, resp: Response<seq<RawScore>>): EditorState
  {
    match resp
    case Failed => s
    case Arrived(data) =>
      match Flatten(data)
      case None => s
      case Some(entries) => s.(scores := entries)
  }

  /** `handleStudentClick`: only the selection changes. */
  function StudentClicked(s: EditorState, id: StudentId): EditorState
  {
    s.(selectedStudent := id)
  }

  /** `handleScoreChange`: the value is written under its scoreId. */
  function ScoreChanged(s: EditorState, scoreId: ScoreId, val: StagedValue): EditorState
  {
    s.(scoreHash := s.scoreHash[scoreId := val])
  }

  /** `handleSave`: the request body is read, then the stage is reset. */
  function Saved(s: EditorState): (EditorState, PatchBody)
  {
    (s.(scoreHash := map[]), PatchBody(s.scoreHash))
  }

  // ---------------------------------------------------------------------
  // Properties of the specification
  // ---------------------------------------------------------------------

  /** Mounting with selection 0 issues no score request. */
  lemma MountRequestsNoScores()
    ensures ScoreRequest(Initial.selectedStudent) == None
  {
  }

  /** A score request is issued exactly for a selection that changed to a
      non-zero id, and it names that id. */
  lemma ScoreRequestOnlyForNewSelection(before: StudentId, after: StudentId)
    ensures ScoreRequestAfter(before, after).Some? <==> after != 0 && after != before
    ensures ScoreRequestAfter(before, after).Some? ==> ScoreRequestAfter(before, after).value == after
  {
  }

  /** A non-empty roster is stored and its first student is selected;
      nothing else changes. */
  lemma RosterSelectsFirst(s: EditorState, data: seq<Student>)
    requires |data| > 0
    ensures RosterArrived(s, Arrived(data))
         == EditorState(data, data[0].id, s.scores, s.scoreHash)
  {
  }

  /** From the mount state, an empty roster or a failed roster request
      leaves the roster empty, nothing selected and no score requested. */
  lemma EmptyOrFailedRosterSelectsNone(resp: Response<seq<Student>>)
    requires resp == Failed || resp == Arrived([])
    ensures RosterArrived(Initial, resp) == Initial
    ensures ScoreRequestAfter(Initial.selectedStudent,
                              RosterArrived(Initial, resp).selectedStudent) == None
  {
  }

  /** A successful load replaces the displayed list by the response,
      entry for entry, in the response's order; the old list plays no
      part, and roster, selection and stage are untouched. */
  lemma ScoresReplaceList(s: EditorState, data: seq<RawScore>)
    requires AllHaveClass(data)
    ensures var r := ScoresArrived(s, Arrived(data));
      && |r.scores| == |data|
      && (forall i :: 0 <= i < |data| ==>
            r.scores[i] == ScoreEntry(data[i].id, data[i].classRef.value.name, data[i].score))
      && r.students == s.students
      && r.selectedStudent == s.selectedStudent
      && r.scoreHash == s.scoreHash
  {
    FlattenDefined(data);
    forall i | 0 <= i < |data|
      ensures Flatten(data).value[i]
           == ScoreEntry(data[i].id, data[i].classRef.value.name, data[i].score)
    {
      FlattenAt(data, i);
    }
  }

  /** Replace, not merge: what is displayed after a load does not depend
      on what was displayed before it. */
  lemma ScoresLoadForgetsPrevious(s: EditorState, previous: seq<ScoreEntry>,
                                  data: seq<RawScore>)
    requires AllHaveClass(data)
    ensures ScoresArrived(s, Arrived(data)).scores
         == ScoresArrived(s.(scores := previous), Arrived(data)).scores
  {
    FlattenDefined(data);
  }

  /** A failed load, or a response holding a record without a class,
      leaves the whole state, the displayed list included, as it was. */
  lemma FailedScoresKeepState(s: EditorState, resp: Response<seq<RawScore>>)
    requires resp.Failed? || !AllHaveClass(resp.data)
    ensures ScoresArrived(s, resp) == s
  {
    if resp.Arrived? {
      FlattenDefined(resp.data);
    }
  }

  /** Staging stores the value verbatim under its key and leaves every
      other key, and every other part of the state, as it was. */
  lemma StageWritesOneKey(s: EditorState, scoreId: ScoreId, val: StagedValue)
    ensures var r := ScoreChanged(s, scoreId, val);
      && r.scoreHash.Keys == s.scoreHash.Keys + {scoreId}
      && r.scoreHash[scoreId] == val
      && (forall k :: k in s.scoreHash && k != scoreId ==> r.scoreHash[k] == s.scoreHash[k])
      && r.students == s.students
      && r.selectedStudent == s.selectedStudent
      && r.scores == s.scores
  {
  }

  /** Staging the same key twice keeps only the later value: the result is
      that of staging the later value alone. */
  lemma StageOverwrites(s: EditorState, scoreId: ScoreId, v1: StagedValue, v2: StagedValue)
    ensures ScoreChanged(ScoreChanged(s, scoreId, v1), scoreId, v2)
         == ScoreChanged(s, scoreId, v2)
  {
  }

  /** Stagings of different keys commute. */
  lemma StageDistinctKeysCommute(s: EditorState, k1: ScoreId, v1: StagedValue,
                                 k2: ScoreId, v2: StagedValue)
    requires k1 != k2
    ensures ScoreChanged(ScoreChanged(s, k1, v1), k2, v2)
         == ScoreChanged(ScoreChanged(s, k2, v2), k1, v1)
  {
  }

  /** Clicking a student changes the selection and nothing else: staged
      edits made while another student was selected survive. */
  lemma ClickKeepsStage(s: EditorState, id: StudentId)
    ensures StudentClicked(s, id).selectedStudent == id
    ensures StudentClicked(s, id).scoreHash == s.scoreHash
    ensures StudentClicked(s, id).scores == s.scores
    ensures StudentClicked(s, id).students == s.students
  {
  }

  /** Save sends the whole stage as one body and leaves the stage empty,
      whatever the request's outcome (the outcome is never consulted). */
  lemma SaveSendsStageAndResets(s: EditorState)
    ensures Saved(s).1.scores == s.scoreHash
    ensures Saved(s).0.scoreHash == map[]
    ensures Saved(s).0 == s.(scoreHash := map[])
  {
  }

  /** A second save in a row sends an empty map. */
  lemma SecondSaveSendsNothing(s: EditorState)
    ensures Saved(Saved(s).0).1 == PatchBody(map[])
  {
  }

  /** An edit staged for one student's score and not saved before clicking
      another student is sent by the next save. */
  lemma StaleEditSentAfterSwitch(s: EditorState, scoreId: ScoreId, val: StagedValue,
                                 other: StudentId)
    ensures var body := Saved(StudentClicked(ScoreChanged(s, scoreId, val), other)).1;
      scoreId in body.scores && body.scores[scoreId] == val
  {
  }

  /** Nothing ties a score response to the selection it was requested for:
      when student a's response arrives after student b's, a's scores are
      displayed while b is selected. */
  lemma LateResponseWins(s: EditorState, a: StudentId, b: StudentId,
                         forA: seq<RawScore>, forB: seq<RawScore>)
    requires a != b && a != 0 && b != 0 && s.selectedStudent != a
    requires AllHaveClass(forA) && AllHaveClass(forB)
    ensures var selA := StudentClicked(s, a);
      var selB := StudentClicked(selA, b);
      var shown := ScoresArrived(ScoresArrived(selB, Arrived(forB)), Arrived(forA));
      && ScoreRequestAfter(s.selectedStudent, a) == Some(a)
      && ScoreRequestAfter(a, b) == Some(b)
      && shown.selectedStudent == b
      && Flatten(forA) == Some(shown.scores)
  {
    FlattenDefined(forA);
    FlattenDefined(forB);
  }

  /** The session of a roster of two, a score load, one edit and a save. */
  lemma ExampleSession()
    ensures var roster := [Student(1, "Ann"), Student(2, "Bo")];
      var s1 := RosterArrived(Initial, Arrived(roster));
      var s2 := ScoresArrived(s1, Arrived([RawScore(10, 70, Some(ClassRef("Math")))]));
      var s3 := ScoreChanged(s2, 10, "85");
      var (s4, body) := Saved(s3);
      && s1.selectedStudent == 1
      && ScoreRequestAfter(Initial.selectedStudent, s1.selectedStudent) == Some(1)
      && s2.scores == [ScoreEntry(10, "Math", 70)]
      && s3.scoreHash == map[10 := "85"]
      && body == PatchBody(map[10 := "85"])
      && s4.scoreHash == map[]
  {
  }

  // ---------------------------------------------------------------------
  // The selection across a session
  // ---------------------------------------------------------------------

  /** Once the roster is non-empty, the selection is the id of one of its
      students. */
  predicate SelectionInRoster(s: EditorState)
  {
    |s.students| > 0 ==>
      exists j :: 0 <= j < |s.students| && s.students[j].id == s.selectedStudent
  }

  /** The events the component reacts to. A click names a student's id. */
  datatype Event =
    | RosterResponse(roster: Response<seq<Student>>)
    | ScoresResponse(records: Response<seq<RawScore>>)
    | StudentClick(id: StudentId)
    | ScoreChange(scoreId: ScoreId, val: StagedValue)
    | SaveClick

  /** The state after one event. */
  function Step(s: EditorState, e: Event): EditorState
  {
    match e
    case RosterResponse(resp) => RosterArrived(s, resp)
    case ScoresResponse(resp) => ScoresArrived(s, resp)
    case StudentClick(id) => StudentClicked(s, id)
    case ScoreChange(scoreId, val) => ScoreChanged(s, scoreId, val)
    case SaveClick => Saved(s).0
  }

  /** The state after a sequence of events, applied in order. */
  function Run(s: EditorState, events: seq<Event>): EditorState
    decreases |events|
  {
    if events == [] then s else Run(Step(s, events[0]), events[1..])
  }

  /** A click can only name a student of the displayed roster: the list of
      students is the only place a click handler is attached. */
  predicate Enabled(s: EditorState, e: Event)
  {
    e.StudentClick? ==> exists j :: 0 <= j < |s.students| && s.students[j].id == e.id
  }

  /** Every event of the sequence is enabled in the state it meets. */
  predicate Feasible(s: EditorState, events: seq<Event>)
    decreases |events|
  {
    events == [] || (Enabled(s, events[0]) && Feasible(Step(s, events[0]), events[1..]))
  }

  /** Every enabled event keeps the selection within a non-empty roster. */
  lemma StepKeepsSelectionInRoster(s: EditorState, e: Event)
    requires SelectionInRoster(s) && Enabled(s, e)
    ensures SelectionInRoster(Step(s, e))
  {
    match e
    case RosterResponse(resp) =>
      if resp.Arrived? && |resp.data| > 0 {
        assert Step(s, e).students[0].id == Step(s, e).selectedStudent;
      }
    case ScoresResponse(resp) =>
    case StudentClick(id) =>
    case ScoreChange(scoreId, val) =>
    case SaveClick =>
  }

  /** Any feasible sequence of events keeps the selection within a
      non-empty roster. */
  lemma {:induction false} RunKeepsSelectionInRoster(s: EditorState, events: seq<Event>)
    requires SelectionInRoster(s) && Feasible(s, events)
    ensures SelectionInRoster(Run(s, events))
    decreases |events|
  {
    if events != [] {
      StepKeepsSelectionInRoster(s, events[0]);
      RunKeepsSelectionInRoster(Step(s, events[0]), events[1..]);
    }
  }

  /** From mount, after any feasible session with a non-empty roster, the
      selected id is the id of one of the roster's students. */
  lemma SessionSelectionInRoster(events: seq<Event>)
    requires Feasible(Initial, events)
    ensures var r := Run(Initial, events);
      |r.students| > 0 ==>
        exists j :: 0 <= j < |r.students| && r.students[j].id == r.selectedStudent
  {
    RunKeepsSelectionInRoster(Initial, events);
  }

  // ---------------------------------------------------------------------
  // The component's state, updated in place by its handlers
  // ---------------------------------------------------------------------

  class Editor {
    var students: seq<Student>
    var selectedStudent: StudentId
    var scores: seq<ScoreEntry>
    var scoreHash: Stage

    /** The state as one value. */
    function State(): EditorState
      reads this
    {
      EditorState(students, selectedStudent, scores, scoreHash)
    }

    /** Mount: the initial values of the four `useState` cells. */
    constructor ()
      ensures State() == Initial
    {
      students, selectedStudent, scores, scoreHash := [], 0, [], map[];
    }

    /** The roster response reaches `fetchStudents`; returns the score
        request the selection effect then issues, if any. */
    method OnRosterResponse(resp: Response<seq<Student>>) returns (request: Option<StudentId>)
      modifies this
      ensures State() == RosterArrived(old(State()), resp)
      ensures request == ScoreRequestAfter(old(selectedStudent), selectedStudent)
    {
      var before := selectedStudent;
      if resp.Arrived? {
        students := resp.data;
        if |resp.data| > 0 {
          selectedStudent := resp.data[0].id;
        }
      }
      request := None;
      if selectedStudent != before && selectedStudent != 0 {
        request := Some(selectedStudent);
      }
    }

    /** A score response reaches `fetchScores`. */
    method OnScoresResponse(resp: Response<seq<RawScore>>)
      modifies this
      ensures State() == ScoresArrived(old(State()), resp)
    {
      if resp.Arrived? {
        var entries := Flatten(resp.data);
        if entries.Some? {
          scores := entries.value;
        }
      }
    }

    /** `handleStudentClick`; returns the score request the selection
        effect then issues, if any. */
    method HandleStudentClick(id: StudentId) returns (request: Option<StudentId>)
      modifies this
      ensures State() == StudentClicked(old(State()), id)
      ensures request == ScoreRequestAfter(old(selectedStudent), id)
    {
      var before := selectedStudent;
      selectedStudent := id;
      request := if id != before && id != 0 then Some(id) else None;
    }

    /** `handleScoreChange`: the stage is written in place. */
    method HandleScoreChange(scoreId: ScoreId, val: StagedValue)
      modifies this
      ensures State() == ScoreChanged(old(State()), scoreId, val)
      ensures scoreHash[scoreId] == val
    {
      scoreHash := scoreHash[scoreId := val];
    }

    /** `handleSave`: returns the body of the one update request, then
        resets the stage without waiting for the outcome. */
    method HandleSave() returns (body: PatchBody)
      modifies this
      ensures (State(), body) == Saved(old(State()))
      ensures body.scores == old(scoreHash) && scoreHash == map[]
    {
      body := PatchBody(scoreHash);
      scoreHash := map[];
    }
  }
}
