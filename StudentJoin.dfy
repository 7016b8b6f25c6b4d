/**
 * The student join page: the code field upper-cases what is typed, and `join` trims and
 * checks both fields before storing them and moving on to the play page.
 */
module StudentJoin {
  import opened Wrappers
  import opened Text

  const MIN_CODE_LENGTH := 3
  const MIN_NAME_LENGTH := 2

  datatype JoinDecision = Rejected | Accepted(code: string, name: string)

  /** The normalised code and name, if both are long enough. */
  function Decide(code: string, name: string): (d: JoinDecision)
    ensures d.Accepted? <==> |Trim(code)| >= MIN_CODE_LENGTH && |Trim(name)| >= MIN_NAME_LENGTH
    ensures d.Accepted? ==> d.code == ToUpper(Trim(code)) && d.name == Trim(name)
  {
    var c := ToUpper(Trim(code));
    var n := Trim(name);
    if |c| < MIN_CODE_LENGTH || |n| < MIN_NAME_LENGTH then Rejected else Accepted(c, n)
  }

  /** An accepted code carries no lower-case letter and no surrounding white space. */
  lemma AcceptedIsNormal(code: string, name: string)
    requires Decide(code, name).Accepted?
    ensures var d := Decide(code, name);
      && (forall i :: 0 <= i < |d.code| ==> !('a' <= d.code[i] <= 'z'))
      && Trim(d.code) == d.code && Trim(d.name) == d.name
  {
    var t := Trim(code);
    var c := ToUpper(t);
    assert Decide(code, name).code == c;
    TrimUpperCommute(t);
    TrimIdempotent(code);
    assert Trim(c) == ToUpper(Trim(t)) == c;
    TrimIdempotent(name);
  }

  /** Joining again with the stored values accepts exactly the same values. */
  lemma DecideIdempotent(code: string, name: string)
    requires Decide(code, name).Accepted?
    ensures Decide(Decide(code, name).code, Decide(code, name).name) == Decide(code, name)
  {
    var d := Decide(code, name);
    AcceptedIsNormal(code, name);
    ToUpperIdempotent(Trim(code));
  }

  class JoinPage {
    var code: string
    var name: string
    /** The session storage entries. */
    var storage: map<string, string>
    /** Where the page navigated, if anywhere. */
    var route: Option<string>

    constructor(storage: map<string, string>)
      ensures code == "" && name == "" && this.storage == storage && route == None
    {
      code := "";
      name := "";
      this.storage := storage;
      route := None;
    }

    /** The code field's `onChange`. */
    method OnCodeChange(value: string)
      modifies this
      ensures code == ToUpper(value)
      ensures name == old(name) && storage == old(storage) && route == old(route)
    {
      code := ToUpper(value);
    }

    /** The name field's `onChange`. */
    method OnNameChange(value: string)
      modifies this
      ensures name == value
      ensures code == old(code) && storage == old(storage) && route == old(route)
    {
      name := value;
    }

    /** The Join button. */
    method Join()
      modifies this
      ensures Decide(code, name).Rejected? ==> storage == old(storage) && route == old(route)
      ensures Decide(code, name).Accepted? ==>
        && storage == old(storage)["mvp_code" := Decide(code, name).code]["mvp_name" := Decide(code, name).name]
        && route == Some("/student/play")
      ensures code == old(code) && name == old(name)
    {
      var c := ToUpper(Trim(code));
      var n := Trim(name);
      if |c| < MIN_CODE_LENGTH || |n| < MIN_NAME_LENGTH {
        return;
      }
      storage := storage["mvp_code" := c]["mvp_name" := n];
      route := Some("/student/play");
    }
  }
}
