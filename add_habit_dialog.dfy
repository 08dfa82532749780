/** `AddHabitDialog`: a name field, an emoji picker and the submit rule that
    keeps blank names out of the habit list. */
module AddHabitDialog {
  import opened Wrappers
  import opened JsText

  /** The twelve emojis on offer; the first is the default. */
  const EmojiOptions: seq<string> := [
    "\U{1F3C3}", "\U{1F4DA}", "\U{1F4A7}", "\U{1F9D8}", "\U{1F4AA}", "\U{1F3A8}",
    "\U{1F3B5}", "\U{270D}\U{FE0F}", "\U{1F331}", "\U{1F634}", "\U{1F34E}", "\U{1F9E0}"
  ]

  const DefaultEmoji: string := "\U{1F3C3}"

  /** The arguments `onAdd` is called with. */
  datatype NewHabitRequest = NewHabitRequest(name: string, emoji: string)

  class Dialog {
    var open: bool
    var name: string
    var selectedEmoji: string

    /** The selected emoji is always one of the options. */
    ghost predicate Valid()
      reads this
    {
      selectedEmoji in EmojiOptions
    }

    constructor ()
      ensures Valid() && !open && name == "" && selectedEmoji == DefaultEmoji
    {
      open := false;
      name := "";
      selectedEmoji := DefaultEmoji;
    }

    /** The trigger button, Cancel and the dialog's own close control. */
    method SetOpen(value: bool)
      requires Valid()
      modifies this
      ensures Valid() && open == value && name == old(name) && selectedEmoji == old(selectedEmoji)
    {
      open := value;
    }

    /** Typing in the name field. */
    method SetName(value: string)
      requires Valid()
      modifies this
      ensures Valid() && name == value && open == old(open) && selectedEmoji == old(selectedEmoji)
    {
      name := value;
    }

    /** Clicking the `index`-th emoji button. */
    method SelectEmoji(index: int)
      requires Valid() && 0 <= index < |EmojiOptions|
      modifies this
      ensures Valid() && selectedEmoji == EmojiOptions[index] && open == old(open) && name == old(name)
    {
      selectedEmoji := EmojiOptions[index];
    }

    /** The submit button is enabled when the name has something besides white space. */
    function SubmitEnabled(): (enabled: bool)
      reads this
      ensures enabled <==> exists k :: 0 <= k < |name| && !IsWhiteSpace(name[k])
    {
      TrimEmpty(name);
      Trim(name) != ""
    }

    /** `handleSubmit`: with a non-blank name, asks for the trimmed name and the
        selected emoji to be added and resets and closes the dialog; with a
        blank name, does nothing. */
    method HandleSubmit() returns (request: Option<NewHabitRequest>)
      requires Valid()
      modifies this
      ensures Valid()
      ensures request.Some? <==> old(SubmitEnabled())
      ensures request.Some? ==>
                request.value == NewHabitRequest(Trim(old(name)), old(selectedEmoji)) &&
                name == "" && selectedEmoji == DefaultEmoji && !open
      ensures request.None? ==>
                name == old(name) && selectedEmoji == old(selectedEmoji) && open == old(open)
    {
      if Trim(name) != "" {
        request := Some(NewHabitRequest(Trim(name), selectedEmoji));
        name := "";
        selectedEmoji := DefaultEmoji;
        open := false;
      } else {
        request := None;
      }
    }
  }

  /** A requested name is never blank and never starts or ends with white space. */
  lemma RequestedNameIsTrimmed(name: string)
    requires Trim(name) != ""
    ensures !AllWhiteSpace(Trim(name))
    ensures !IsWhiteSpace(Trim(name)[0]) && !IsWhiteSpace(Trim(name)[|Trim(name)| - 1])
    ensures Trim(Trim(name)) == Trim(name)
  {
    TrimEmpty(Trim(name));
    TrimIdempotent(name);
  }
}
