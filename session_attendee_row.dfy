/**
 * One attendee of a session (components/SessionAttendeeRow.tsx): the label
 * and avatar shown for the participant, and the inline nickname editor with
 * its save and cancel rules. The PATCH request is the argument of `BeginSave`'s
 * result and its outcome the argument of `FinishSave`.
 */
module SessionAttendeeRow {
  import opened Wrappers
  import opened JsStrings

  /** `participantId.slice(-4)`: the last four characters, or the whole id when it is shorter. */
  function Suffix(participantId: string): (r: string)
    ensures |r| == Min(4, |participantId|)
    ensures participantId == participantId[..|participantId| - |r|] + r
  {
    if |participantId| >= 4 then participantId[|participantId| - 4..] else participantId
  }

  /** The name line: the nickname, or "Participant" when it is empty, then the suffix in parentheses. */
  function Label(nickname: string, participantId: string): (r: string)
    ensures nickname != "" ==> r == nickname + " (" + Suffix(participantId) + ")"
    ensures nickname == "" ==> r == "Participant (" + Suffix(participantId) + ")"
  {
    var name := if nickname != "" then nickname else "Participant";
    name + " (" + Suffix(participantId) + ")"
  }

  /** Two different nicknames give two different labels for the same participant. */
  lemma LabelDistinguishesNicknames(a: string, b: string, participantId: string)
    requires a != "" && b != "" && a != b
    ensures Label(a, participantId) != Label(b, participantId)
  {
    var tail := " (" + Suffix(participantId) + ")";
    assert Label(a, participantId) == a + tail && Label(b, participantId) == b + tail;
    if a + tail == b + tail {
      SameTailSameHead(a, b, tail);
    }
  }

  lemma SameTailSameHead(a: string, b: string, tail: string)
    requires a + tail == b + tail
    ensures a == b
  {
    assert |a| == |b|;
    assert a == (a + tail)[..|a|] && b == (b + tail)[..|b|];
  }

  /** Without a nickname the label is exactly the one for the nickname "Participant". */
  lemma EmptyNicknameLooksLikeParticipant(participantId: string)
    ensures Label("", participantId) == Label("Participant", participantId)
  {
  }

  /** `(nickname || "P").charAt(0).toUpperCase()` */
  function Avatar(nickname: string): (r: string)
    ensures |r| == 1
    ensures nickname == "" ==> r == "P"
    ensures nickname != "" ==> r == ToUpper(nickname[..1])
    ensures !('a' <= r[0] <= 'z')
  {
    var name := if nickname != "" then nickname else "P";
    ToUpper(name[..1])
  }

  /** The fetch outcomes `handleSave` distinguishes: an ok response, another response, a rejected fetch. */
  datatype SaveOutcome = Ok | NotOk | NetworkError

  /** `currentNickname`, `editing`, `value` and `saving` of one row. */
  class AttendeeRow {
    const participantId: string
    var currentNickname: string
    var editing: bool
    var value: string
    var saving: bool
    ghost const initialNickname: string

    /** The shown nickname is the one the row started with, or a trimmed, non-empty saved one. */
    ghost predicate Valid()
      reads this
    {
      currentNickname == initialNickname || (currentNickname != "" && IsTrimmed(currentNickname))
    }

    /** The row as first rendered: a missing nickname is empty, not editing, the draft is the nickname. */
    constructor (participantId: string, nickname: Option<string>)
      ensures Valid()
      ensures this.participantId == participantId
      ensures currentNickname == nickname.GetOr("") && value == currentNickname
      ensures !editing && !saving
    {
      this.participantId := participantId;
      initialNickname := nickname.GetOr("");
      currentNickname := nickname.GetOr("");
      value := nickname.GetOr("");
      editing := false;
      saving := false;
    }

    /** The "Edit" button: editing on, the draft kept as it was. */
    method StartEditing()
      requires Valid()
      modifies this`editing
      ensures Valid()
      ensures editing
    {
      editing := true;
    }

    /** Typing into the draft. */
    method SetValue(text: string)
      requires Valid()
      modifies this`value
      ensures Valid()
      ensures value == text
    {
      value := text;
    }

    /**
     * The "Save" button. It is disabled while a save is in flight. An empty or
     * whitespace-only draft does nothing; otherwise `saving` goes on and the
     * trimmed draft is the nickname sent.
     */
    method BeginSave() returns (request: Option<string>)
      requires Valid()
      modifies this`saving
      ensures Valid()
      ensures old(saving) || Trim(value) == "" ==> request.None? && saving == old(saving)
      ensures !old(saving) && Trim(value) != "" ==> request == Some(Trim(value)) && saving
      ensures request.Some? ==> request.value != "" && IsTrimmed(request.value)
    {
      if saving {
        return None;
      }
      var next := Trim(value);
      if next == "" {
        return None;
      }
      saving := true;
      request := Some(next);
    }

    /**
     * The response to the save of `next` arrives. A rejected fetch ends the
     * handler before `saving` is cleared. Any response clears it; only an ok
     * one takes the new nickname and leaves edit mode.
     */
    method FinishSave(next: string, outcome: SaveOutcome)
      requires Valid()
      requires next != "" && IsTrimmed(next)
      modifies this`saving, this`currentNickname, this`editing
      ensures Valid()
      ensures outcome == NetworkError ==>
                saving == old(saving) && currentNickname == old(currentNickname) && editing == old(editing)
      ensures outcome == NotOk ==>
                !saving && currentNickname == old(currentNickname) && editing == old(editing)
      ensures outcome == Ok ==> !saving && currentNickname == next && !editing
    {
      if outcome == NetworkError {
        return;
      }
      saving := false;
      if outcome == Ok {
        currentNickname := next;
        editing := false;
      }
    }

    /** The "Cancel" button: the draft goes back to the shown nickname and editing ends. */
    method Cancel()
      requires Valid()
      modifies this`value, this`editing
      ensures Valid()
      ensures value == currentNickname && !editing
    {
      value := currentNickname;
      editing := false;
    }
  }
}
