/** Unchanged edits of a schedule, seen through its row, its input and its secrets together. */
module Edits {
  import opened Agreement
  import opened Lines
  import opened Options
  import opened Records
  import FormEdits
  import Schedules
  import SecretLaws
  import Secrets

  /** Every line of a text that holds anything survives masking. */
  predicate AllSurvive(text: string) {
    forall line | line in NonBlank(SplitLines(text)) :: SecretLaws.Survives(line)
  }

  /** Every line of a text that holds anything is one the form gives back. */
  predicate AllGood(text: string) {
    forall line | line in NonBlank(SplitLines(text)) :: SecretLaws.GoodLine(line)
  }

  /**
   * An update that submits the columns as the row shows them keeps the stored pipeline, its secrets line by line with
   * the latest value of each key, exactly when every line of the secrets survives masking.
   */
  lemma {:induction false} UnchangedUpdate(s: Store, id: Id, req: Schedules.ScheduleRequest, secret: string)
    requires SchedulesAgree(s) && id in s.schedules && id in s.inputs && s.inputs[id].pipeline.secure == Some(secret)
    requires req.run.pipeline == s.schedules[id].pipeline
    ensures Schedules.Resolved(s, id, req).Some?
    ensures Schedules.Resolved(s, id, req) == Some(s.inputs[id].pipeline.(secure := SecretLaws.LatestText(secret)))
            <==> AllSurvive(secret)
  {
    hide Secrets.Merge, Secrets.Mask, SecretLaws.LatestText, SecretLaws.Survives, NonBlank, SplitLines;
    SecretLaws.MaskThenMerge(secret);
  }

  /** The same when the secrets first pass through the form of the user interface, which asks more of their lines. */
  lemma {:induction false} UnchangedFormUpdate(s: Store, id: Id, req: Schedules.ScheduleRequest, secret: string)
    requires SchedulesAgree(s) && id in s.schedules && id in s.inputs && s.inputs[id].pipeline.secure == Some(secret)
    requires var shown := s.schedules[id].pipeline;
             req.run.pipeline == shown.(secure := SecretLaws.ThroughForm(shown.secure))
    ensures Schedules.Resolved(s, id, req) == Some(s.inputs[id].pipeline.(secure := SecretLaws.LatestText(secret)))
            <==> AllGood(secret)
  {
    hide Secrets.Merge, Secrets.Mask, SecretLaws.LatestText, SecretLaws.GoodLine, SecretLaws.ThroughForm, NonBlank,
         SplitLines;
    FormEdits.FormThenMerge(secret);
  }
}
