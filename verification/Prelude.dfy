/** Datatypes shared by every module of the model. */
module Prelude {

  /** A value that may be absent (the source's `Option`, `null` or `undefined`). */
  datatype Option<+T> = None | Some(value: T)

  /** A value or an error (the source's `Result`, exception or rejected promise). */
  datatype Result<+T, +E> = Ok(value: T) | Err(error: E)

  /** The steps of the first-run wizard. */
  datatype WizardStep = StepMic | StepSystemAudio | StepScreen | StepConnection | StepDone
}
