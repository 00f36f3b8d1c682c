/**
 * The editor's three callout commands, `replaceWithNote`, `replaceWithImportant`
 * and `replaceWithWarning`. Each looks at the element where the selection starts:
 * if it already carries the command's class the class is taken off; otherwise if
 * it carries one of the two other callout classes (checked in the command's own
 * order) that class is swapped for the command's; otherwise a new `div` of the
 * command's class holding the selected text is inserted. With nothing selected the
 * command does nothing.
 */
module Callouts {
  import opened Wrappers

  const NoteClass := "note"
  const ImportantClass := "important-note"
  const WarningClass := "warning-note"

  /** The callout classes. A command never gives an element a second one (`ApplyKeepsAtMostOne`). */
  const CalloutClasses: set<string> := {NoteClass, ImportantClass, WarningClass}

  /** A `div` element created by a command, with its class and its text. */
  datatype Div = Div(cls: string, text: string)

  /** A command: the class it toggles, then the two it replaces, in the order it checks them. */
  datatype Command = Command(target: string, first: string, second: string)

  const ReplaceWithNoteCommand := Command(NoteClass, ImportantClass, WarningClass)
  const ReplaceWithImportantCommand := Command(ImportantClass, NoteClass, WarningClass)
  const ReplaceWithWarningCommand := Command(WarningClass, ImportantClass, NoteClass)

  /** The three classes a command looks at are the three callout classes, each once. */
  predicate WellFormed(cmd: Command) {
    && cmd.target != cmd.first && cmd.target != cmd.second && cmd.first != cmd.second
    && {cmd.target, cmd.first, cmd.second} == CalloutClasses
  }

  lemma CommandsWellFormed()
    ensures WellFormed(ReplaceWithNoteCommand)
    ensures WellFormed(ReplaceWithImportantCommand)
    ensures WellFormed(ReplaceWithWarningCommand)
  {
  }

  /** What a command does: the element's new classes and the element it inserts, if any. */
  datatype Outcome = Outcome(classes: set<string>, insert: Option<Div>)

  /** The effect of running `cmd` on the element's classes with `selected` as the selected text. */
  function Apply(cmd: Command, selected: string, classes: set<string>): (r: Outcome)
    // nothing selected: nothing happens
    ensures selected == "" ==> r == Outcome(classes, None)
    // a new div is inserted exactly when the element carries none of the three classes
    ensures r.insert.Some? <==>
      selected != "" && cmd.target !in classes && cmd.first !in classes && cmd.second !in classes
    ensures r.insert.Some? ==> r.insert == Some(Div(cmd.target, selected)) && r.classes == classes
    // the command's own class is toggled off
    ensures selected != "" && cmd.target in classes ==> r.classes == classes - {cmd.target}
    // otherwise only the first of the other two that is present is swapped for it
    ensures selected != "" && cmd.target !in classes && cmd.first in classes ==>
      r.classes == classes - {cmd.first} + {cmd.target}
    ensures selected != "" && cmd.target !in classes && cmd.first !in classes && cmd.second in classes ==>
      r.classes == classes - {cmd.second} + {cmd.target}
  {
    if selected == "" then Outcome(classes, None)
    else if cmd.target in classes then Outcome(classes - {cmd.target}, None)
    else if cmd.first in classes then Outcome(classes - {cmd.first} + {cmd.target}, None)
    else if cmd.second in classes then Outcome(classes - {cmd.second} + {cmd.target}, None)
    else Outcome(classes, Some(Div(cmd.target, selected)))
  }

  /** The element carries at most one callout class. */
  predicate AtMostOneCallout(classes: set<string>) {
    forall x, y :: x in classes && y in classes && x in CalloutClasses && y in CalloutClasses ==> x == y
  }

  /** The callout class the element carries, if any (meaningful when it carries at most one). */
  function CalloutOf(classes: set<string>): (r: Option<string>)
    ensures r.Some? ==> r.value in classes && r.value in CalloutClasses
    ensures r.None? <==> forall c :: c in CalloutClasses ==> c !in classes
  {
    if NoteClass in classes then Some(NoteClass)
    else if ImportantClass in classes then Some(ImportantClass)
    else if WarningClass in classes then Some(WarningClass)
    else None
  }

  /** A command never gives an element a second callout class. */
  lemma ApplyKeepsAtMostOne(cmd: Command, selected: string, classes: set<string>)
    requires WellFormed(cmd) && AtMostOneCallout(classes)
    ensures AtMostOneCallout(Apply(cmd, selected, classes).classes)
  {
  }

  /**
   * On an element with at most one callout class, each command is a small state
   * machine: its own class goes away, another callout class becomes its own, and
   * an element with none is left alone while a new callout is inserted.
   */
  lemma ApplyOnOneCallout(cmd: Command, selected: string, classes: set<string>)
    requires WellFormed(cmd) && AtMostOneCallout(classes) && selected != ""
    ensures var r := Apply(cmd, selected, classes);
      && (CalloutOf(classes) == Some(cmd.target) ==> CalloutOf(r.classes).None? && r.insert.None?)
      && (CalloutOf(classes).Some? && CalloutOf(classes) != Some(cmd.target) ==>
            CalloutOf(r.classes) == Some(cmd.target) && r.insert.None?)
      && (CalloutOf(classes).None? ==> CalloutOf(r.classes).None? && r.insert == Some(Div(cmd.target, selected)))
  {
    ApplyKeepsAtMostOne(cmd, selected, classes);
  }

  /** Classes other than the three callout classes are never touched. */
  lemma ApplyKeepsOtherClasses(cmd: Command, selected: string, classes: set<string>)
    requires WellFormed(cmd)
    ensures Apply(cmd, selected, classes).classes - CalloutClasses == classes - CalloutClasses
  {
  }

  /**
   * The order of the checks matters only on an element that already carries two
   * callout classes: there `replaceWithWarning` swaps `important-note`, whereas
   * `replaceWithImportant` would swap `note`.
   */
  lemma WarningChecksImportantFirst()
    ensures Apply(ReplaceWithWarningCommand, "x", {NoteClass, ImportantClass}).classes == {NoteClass, WarningClass}
    ensures Apply(ReplaceWithImportantCommand, "x", {NoteClass, WarningClass}).classes == {WarningClass, ImportantClass}
  {
  }

  /** The editor: the classes of the element where the selection starts, and the elements inserted so far. */
  class Editor {
    var classes: set<string>
    var inserted: seq<Div>

    constructor (classes: set<string>)
      ensures this.classes == classes && inserted == []
    {
      this.classes := classes;
      inserted := [];
    }

    /** One command's `exec`, changing the class list in place or inserting a new `div`. */
    method Exec(cmd: Command, selected: string)
      modifies this
      ensures classes == Apply(cmd, selected, old(classes)).classes
      ensures inserted == old(inserted) +
        (match Apply(cmd, selected, old(classes)).insert case Some(d) => [d] case None => [])
      ensures WellFormed(cmd) && AtMostOneCallout(old(classes)) ==> AtMostOneCallout(classes)
    {
      if WellFormed(cmd) && AtMostOneCallout(classes) {
        ApplyKeepsAtMostOne(cmd, selected, classes);
      }
      if selected != "" {
        if cmd.target in classes {
          classes := classes - {cmd.target};
        } else if cmd.first in classes {
          classes := classes - {cmd.first};
          classes := classes + {cmd.target};
        } else if cmd.second in classes {
          classes := classes - {cmd.second};
          classes := classes + {cmd.target};
        } else {
          var replacement := Div(cmd.target, selected);
          inserted := inserted + [replacement];
        }
      }
    }

    method ReplaceWithNote(selected: string)
      modifies this
      ensures classes == Apply(ReplaceWithNoteCommand, selected, old(classes)).classes
      ensures inserted == old(inserted) +
        (match Apply(ReplaceWithNoteCommand, selected, old(classes)).insert case Some(d) => [d] case None => [])
    {
      Exec(ReplaceWithNoteCommand, selected);
    }

    method ReplaceWithImportant(selected: string)
      modifies this
      ensures classes == Apply(ReplaceWithImportantCommand, selected, old(classes)).classes
      ensures inserted == old(inserted) +
        (match Apply(ReplaceWithImportantCommand, selected, old(classes)).insert case Some(d) => [d] case None => [])
    {
      Exec(ReplaceWithImportantCommand, selected);
    }

    method ReplaceWithWarning(selected: string)
      modifies this
      ensures classes == Apply(ReplaceWithWarningCommand, selected, old(classes)).classes
      ensures inserted == old(inserted) +
        (match Apply(ReplaceWithWarningCommand, selected, old(classes)).insert case Some(d) => [d] case None => [])
    {
      Exec(ReplaceWithWarningCommand, selected);
    }
  }
}
