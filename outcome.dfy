/** Outcomes shared by the roll engine: optional values, the errors a command
    can report, and a result that carries either a value or one of them. */
module Outcome {

  datatype Option<T> = None | Some(value: T)

  /** The failures the engine can surface to the chat layer. */
  datatype Error =
    | SourceError              // the image endpoint failed or gave no usable body
    | InvalidRarity            // `!autodelete` got a name outside the rarity table
    | InvalidSettingsArgument  // `!autoclaim` got something other than on/off

  datatype Result<T> = Success(value: T) | Failure(error: Error)
}
