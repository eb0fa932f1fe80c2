/** Failure values of the experiment pipeline. Every failure the Java code raises is a
    RuntimeException that nobody catches, so each one ends the whole batch. */
module Results {

  datatype Option<+T> = None | Some(value: T)

  datatype Error =
    | ElementNotFound             // setVariedObject(null): the element id did not resolve
    | NotALoop                    // "Expected a Loop, but encountered a ..."
    | LoadFailed(folder: string)  // copying the model files or loading the copy threw
    | SaveFailed(folder: string)  // saveResources threw an IOException
    | SimulationFailed(runLabel: string, repetition: int)  // "The simulation failed"

  datatype Outcome = Pass | Fail(error: Error)
}
