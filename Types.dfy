/** The records shared by the library and the game pages (lib/types.ts), plus the
    Option wrapper used wherever the source returns `null` or leaves a field `undefined`. */
module Types {

  datatype Option<+T> = None | Some(value: T) {
    function GetOr(default: T): (r: T)
      ensures Some? ==> r == value
      ensures None? ==> r == default
    {
      match this
      case Some(v) => v
      case None => default
    }
  }

  datatype UserType = Student | Adult

  /** The four game modes; a record's `mode` field. */
  datatype ModeType = Simple | Color | Sprint | Dual

  datatype User = User(id: string, name: string, userType: UserType, createdAt: string)

  /** A persisted session summary. `accuracy`, `score` and `sleepHours` are optional fields. */
  datatype Record = Record(
    id: string,
    userId: string,
    userName: string,
    mode: ModeType,
    reactionTime: int,
    accuracy: Option<int>,
    score: Option<int>,
    sleepHours: Option<real>,
    createdAt: string)

  /** What a game page hands to `addRecord`: a record without its `id` and `createdAt`. */
  datatype NewRecord = NewRecord(
    userId: string,
    userName: string,
    mode: ModeType,
    reactionTime: int,
    accuracy: Option<int>,
    score: Option<int>,
    sleepHours: Option<real>)

  datatype Session = Session(id: string, name: string, date: string)

  /** `label` is a Dafny keyword, so that field is `labelText` here. */
  datatype EvaluationResult = EvaluationResult(emoji: string, labelText: string, message: string, sprintImpact: string)

  /** Math.round on an exact value: round half up. */
  function Round(x: real): (n: int)
    ensures n as real <= x + 0.5 < n as real + 1.0
  {
    (x + 0.5).Floor
  }

  lemma RoundMonotone(x: real, y: real)
    requires x <= y
    ensures Round(x) <= Round(y)
  {
  }
}
