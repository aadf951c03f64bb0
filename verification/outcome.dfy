/** Errors raised by the QENS models, and the Result type that carries them. */
module Outcome {

  /** The parameter a `ValueError` complains about. */
  datatype Parameter =
    | Diffusion            // D, a translational diffusion coefficient
    | ResidenceTime        // resTime
    | JumpLength           // L
    | Radius               // radius
    | RotationalDiffusion  // DR
    | Variance             // variance_ux
    | NumberOfSites        // Nsites
    | Sigma                // sigma of the log-normal distribution
    | ImmobileFraction     // A0 of sqwDeltaLorentz
    | Coefficients         // list_coefficients of background_polynomials

  /** The Python exception classes the models raise. */
  datatype Error =
    | ValueError(param: Parameter)
    | ZeroDivisionError
    | IndexError
    | TypeError

  datatype Result<+T> = Ok(value: T) | Err(error: Error) {
    predicate IsFailure() { Err? }

    function PropagateFailure<U>(): Result<U>
      requires Err?
    {
      Err(error)
    }

    function Extract(): T
      requires Ok?
    {
      value
    }
  }
}
