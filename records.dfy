/** Records exchanged with the score server and the flattening that turns a
    student's raw score records into the entries the editor displays
    (src/App.js, `fetchScores`, the `data.map` at lines 45-50). */
module ScoreRecords {

  datatype Option<+T> = None | Some(value: T)

  /** Identifiers are the server's integer ids; a selection of 0 means "none". */
  type StudentId = int
  type ScoreId = int

  /** One element of the roster response: `{ id, name }`. */
  datatype Student = Student(id: StudentId, name: string)

  /** The class a raw score record embeds as `Class: { name }`. */
  datatype ClassRef = ClassRef(name: string)

  /** One element of a student's score response: `{ id, score, Class }`.
      `Class` is `None` when the server sends the record without it; reading
      `item.Class.name` then throws. */
  datatype RawScore = RawScore(id: ScoreId, score: int, classRef: Option<ClassRef>)

  /** What the editor displays for one score: `{ scoreId, className, score }`. */
  datatype ScoreEntry = ScoreEntry(scoreId: ScoreId, className: string, score: int)

  /** Every record carries its class, so `item.Class.name` can be read. */
  predicate AllHaveClass(data: seq<RawScore>)
  {
    forall i :: 0 <= i < |data| ==> data[i].classRef.Some?
  }

  /** The flattening done by `fetchScores`: each record becomes an entry
      carrying its id, its class's name and its score, in the response's
      order; `None` when some record has no class, so that reading the
      class's name throws. */
  function Flatten(data: seq<RawScore>): (r: Option<seq<ScoreEntry>>)
    ensures r.Some? ==> |r.value| == |data|
  {
    if data == [] then Some([])
    else match data[0].classRef
      case None => None
      case Some(c) =>
        match Flatten(data[1..])
        case None => None
        case Some(rest) => Some([ScoreEntry(data[0].id, c.name, data[0].score)] + rest)
  }

  /** The flattening succeeds exactly when every record has a class. */
  lemma {:induction false} FlattenDefined(data: seq<RawScore>)
    ensures Flatten(data).Some? <==> AllHaveClass(data)
  {
    if data != [] {
      FlattenDefined(data[1..]);
      if AllHaveClass(data) {
        assert forall i :: 0 <= i < |data[1..]| ==> data[1..][i] == data[i + 1];
      } else if data[0].classRef.Some? {
        var i :| 0 <= i < |data| && data[i].classRef.None?;
        assert data[1..][i - 1] == data[i];
      }
    }
  }

  /** The entry at position i comes from the record at position i, field by
      field: `scoreId = id`, `className = Class.name`, `score = score`. */
  lemma {:induction false} FlattenAt(data: seq<RawScore>, i: nat)
    requires Flatten(data).Some?
    requires i < |data|
    ensures data[i].classRef.Some?
    ensures Flatten(data).value[i]
         == ScoreEntry(data[i].id, data[i].classRef.value.name, data[i].score)
  {
    if i > 0 {
      FlattenAt(data[1..], i - 1);
    }
  }
}
