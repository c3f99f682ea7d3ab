/**
  The name check that the input box runs on every keystroke
  (`DevindoGenerator.validate`). `undefined` and `null` are `None`.
 */
module Validation {
  import opened Wrappers

  const NameRequired: string := "Name is required"
  const SpacesNotAllowed: string := "Spaces are not allowed"

  /** The error text for a rejected name, or `None` when the name is accepted. */
  function Validate(name: Option<string>): (r: Option<string>)
    ensures r == Some(NameRequired) <==> name == None || name == Some("")
    ensures r == Some(SpacesNotAllowed)
        <==> name.Some? && name.value != "" && exists i :: 0 <= i < |name.value| && name.value[i] == ' '
    ensures r == None
        <==> name.Some? && name.value != "" && forall i :: 0 <= i < |name.value| ==> name.value[i] != ' '
  {
    if name == None || name.value == "" then Some(NameRequired)
    else if ' ' in name.value then Some(SpacesNotAllowed)
    else None
  }

  /** A space anywhere is rejected, whatever surrounds it. */
  lemma SpaceIsRejected(before: string, after: string)
    ensures Validate(Some(before + " " + after)) == Some(SpacesNotAllowed)
  {
    var s := before + " " + after;
    assert s[|before|] == ' ';
  }

  /** Only the space character is refused: tabs and newlines pass. */
  lemma OtherWhitespaceIsAccepted()
    ensures Validate(Some("my\tapp")) == None
    ensures Validate(Some("my\napp")) == None
  {
    assert forall i :: 0 <= i < |"my\tapp"| ==> "my\tapp"[i] != ' ';
    assert forall i :: 0 <= i < |"my\napp"| ==> "my\napp"[i] != ' ';
  }
}
