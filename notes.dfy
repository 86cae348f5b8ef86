/** The audit lines the handlers append to `deliveries.notes` with
    `COALESCE(notes, '') || ?`. The timestamp is `toLocaleString('pl-PL')` of
    the clock, passed in as text. */
module Notes {
  import opened Wrappers
  import Text

  function Stamp(ts: string): string {
    "[" + ts + "] "
  }

  /** The line every delivery's notes begin with. */
  function CreationLine(ts: string): string {
    Stamp(ts) + "[KLIENT]: UTWORZONO zamówienie."
  }

  /** The notes a new delivery starts with: the creation line, then the
      client's comment on its own line when the comment is not blank. */
  function CreationNotes(ts: string, comment: Option<string>): (r: string)
    ensures CreationLine(ts) <= r
    ensures r == CreationLine(ts) <==> !Text.HasText(comment)
    ensures Text.HasText(comment) ==> EndsWith(r, "\n" + Stamp(ts) + "[KLIENT]: " + comment.value)
  {
    var r := CreationLine(ts)
      + (if Text.HasText(comment) then "\n" + Stamp(ts) + "[KLIENT]: " + comment.value else "");
    assert Text.HasText(comment) ==> |r| > |CreationLine(ts)|;
    r
  }

  /** A note the handlers append: it opens a new line that starts with the
      timestamp, so the notes before it are left as they were. */
  predicate OpensStampedLine(note: string, ts: string) {
    |note| >= 1 && note[0] == '\n' && Stamp(ts) <= note[1..]
  }

  function AssignNote(ts: string): (r: string)
    ensures OpensStampedLine(r, ts) && EndsWith(r, "[KURIER]: Przyjęto do realizacji.")
  {
    var r := "\n" + Stamp(ts) + "[KURIER]: Przyjęto do realizacji.";
    assert r[1..] == Stamp(ts) + "[KURIER]: Przyjęto do realizacji.";
    r
  }

  /** Names the courier who gave the delivery up. */
  function UnassignNote(ts: string, courierName: string): (r: string)
    ensures OpensStampedLine(r, ts) && EndsWith(r, courierName + " zrezygnował z realizacji.")
  {
    var r := "\n" + Stamp(ts) + "[SYSTEM]: Kurier " + courierName + " zrezygnował z realizacji.";
    assert r[1..] == Stamp(ts) + "[SYSTEM]: Kurier " + courierName + " zrezygnował z realizacji.";
    assert r == "\n" + Stamp(ts) + "[SYSTEM]: Kurier " + (courierName + " zrezygnował z realizacji.");
    r
  }

  /** The delivery report, then the courier's comment when it is not blank. */
  function CompleteNote(ts: string, comment: Option<string>): (r: string)
    ensures OpensStampedLine(r, ts)
    ensures Text.HasText(comment) ==> EndsWith(r, "\n" + Stamp(ts) + "[KURIER]: " + comment.value)
    ensures !Text.HasText(comment) ==> EndsWith(r, "[KURIER]: Zgłoszono dostarczenie.")
  {
    var report := "[KURIER]: Zgłoszono dostarczenie.";
    var head := "\n" + Stamp(ts) + report;
    var tail := if Text.HasText(comment) then "\n" + Stamp(ts) + "[KURIER]: " + comment.value else "";
    OpensStampedLineAppend(ts, report, tail);
    EndsWithAppend(head, tail);
    EndsWithAppend("\n" + Stamp(ts), report);
    head + tail
  }

  const FullReceipt := "Potwierdzono odbiór (CAŁOŚĆ)."
  const PartialReceipt := "Potwierdzono odbiór (CZĘŚCIOWY)."

  /** The receipt line; which receipt it names is `ConfirmNoteNamesOutcome`. */
  function ConfirmNote(ts: string, full: bool): (r: string)
    ensures OpensStampedLine(r, ts)
  {
    var r := "\n" + Stamp(ts) + "[KLIENT]: " + (if full then FullReceipt else PartialReceipt);
    assert r[1..] == Stamp(ts) + "[KLIENT]: " + (if full then FullReceipt else PartialReceipt);
    r
  }

  /** The client's problem report, ending with their description. */
  function ProblemNote(ts: string, comment: string): (r: string)
    ensures OpensStampedLine(r, ts) && EndsWith(r, "[KLIENT] (PROBLEM): " + comment)
  {
    var r := "\n" + Stamp(ts) + "[KLIENT] (PROBLEM): " + comment;
    assert r[1..] == Stamp(ts) + "[KLIENT] (PROBLEM): " + comment;
    assert r == "\n" + Stamp(ts) + ("[KLIENT] (PROBLEM): " + comment);
    r
  }

  predicate EndsWith(s: string, suffix: string) {
    |suffix| <= |s| && s[|s| - |suffix|..] == suffix
  }

  lemma EndsWithAppend(s: string, suffix: string)
    ensures EndsWith(s + suffix, suffix)
  {
  }

  lemma OpensStampedLineAppend(ts: string, text: string, tail: string)
    ensures OpensStampedLine("\n" + Stamp(ts) + text + tail, ts)
  {
    assert ("\n" + Stamp(ts) + text + tail)[1..] == Stamp(ts) + (text + tail);
  }

  /** The confirmation line names the full receipt exactly when the delivery
      was complete, and the partial one otherwise, whatever the timestamp. */
  lemma ConfirmNoteNamesOutcome(ts: string, full: bool)
    ensures EndsWith(ConfirmNote(ts, full), FullReceipt) <==> full
    ensures EndsWith(ConfirmNote(ts, full), PartialReceipt) <==> !full
  {
    var head := "\n" + Stamp(ts) + "[KLIENT]: ";
    var note := ConfirmNote(ts, full);
    var tail := if full then FullReceipt else PartialReceipt;
    assert note == head + tail;
    assert note[|note| - |tail|..] == tail;
    if full {
      assert note[|note| - |PartialReceipt|..][|PartialReceipt| - 3] != PartialReceipt[|PartialReceipt| - 3];
    } else {
      assert note[|note| - |FullReceipt|..][|FullReceipt| - 3] != FullReceipt[|FullReceipt| - 3];
    }
  }
}
