/** The setup form (components/ResumeInput.tsx): three text fields and a mode picker, whose submission starts
    an interview only when every field is filled in. */
module ResumeInput {
  import opened Types
  import opened Wrappers
  import opened Constants

  /** The guard of `handleSubmit`: every field is a non-empty string. Nothing is trimmed, so a field holding only
      spaces is accepted. */
  predicate AcceptsFields(name: string, role: string, resume: string) {
    name != "" && role != "" && resume != ""
  }

  /** Only emptiness is tested: white space counts as content. */
  lemma BlankFieldsAccepted(name: string, role: string, resume: string)
    requires |name| > 0 && |role| > 0 && |resume| > 0
    ensures AcceptsFields(name, role, resume)
    ensures AcceptsFields(" ", "\t", "\n")
    ensures !AcceptsFields("", role, resume) && !AcceptsFields(name, "", resume) && !AcceptsFields(name, role, "")
  {
  }

  class Form {
    var name: string
    var role: string
    var resume: string
    var mode: InterviewMode

    /** The form starts empty, with the FAANG technical round selected. */
    constructor ()
      ensures name == "" && role == "" && resume == "" && mode == FaangTechnical
    {
      name, role, resume, mode := "", "", "", FaangTechnical;
    }

    method SetName(value: string)
      modifies this
      ensures name == value && role == old(role) && resume == old(resume) && mode == old(mode)
    {
      name := value;
    }

    method SetRole(value: string)
      modifies this
      ensures role == value && name == old(name) && resume == old(resume) && mode == old(mode)
    {
      role := value;
    }

    method SetResume(value: string)
      modifies this
      ensures resume == value && name == old(name) && role == old(role) && mode == old(mode)
    {
      resume := value;
    }

    /** Clicking the mode card at position `card` of the mode table selects that card's key. */
    method SelectCard(card: nat)
      requires card < |ModeKeys()|
      modifies this
      ensures mode == ModeKeys()[card] && name == old(name) && role == old(role) && resume == old(resume)
    {
      mode := ModeKeys()[card];
    }

    /** The card at position `card` is drawn as the selected one. */
    predicate CardSelected(card: nat)
      reads this
      requires card < |ModeKeys()|
    {
      ModeKeys()[card] == mode
    }

    /** Exactly one card, the selected mode's, is drawn as selected. */
    lemma OneCardSelected()
      ensures forall card: nat :: card < |ModeKeys()| ==> (CardSelected(card) <==> card == ModeIndex(mode))
    {
    }

    /** `handleSubmit`: the profile and mode handed to `onStart`, or nothing when a field is empty. */
    method HandleSubmit() returns (start: Option<(UserProfile, InterviewMode)>)
      ensures start.Some? <==> AcceptsFields(name, role, resume)
      ensures start.Some? ==> start.value == (UserProfile(name, role, resume), mode)
    {
      if name == "" || role == "" || resume == "" {
        return None;
      }
      return Some((UserProfile(name, role, resume), mode));
    }
  }
}
