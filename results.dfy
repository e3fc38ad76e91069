/** Optional values, the errors the generator raises, and a failure-compatible
    result type carrying them (a thrown JavaScript Error becomes an `Err`). */
module Results {

  datatype Option<+T> = None | Some(value: T)

  /** Every error the modelled core raises, one constructor per `throw`. */
  datatype Error =
    | UnsupportedColorFormat   // background neither "#..." nor "rgb..."
    | InvalidHexColor          // hex body of a length other than 3 or 6
    | InvalidRgbString         // no `rgb( d , d , d )` match
    | FontNotLoaded            // text layout asked of an absent font
    | FontLoadFailed           // the font promise awaited by `generate` rejected
    | EmptyCharset             // no character left after removing the ignored ones
    | FormulaNotEvaluable      // formula text outside the modelled arithmetic grammar
    | StillSampling            // the model's bound on rejection-sampling rounds ran out

  /** The message text the source attaches to each error it throws. The
      messages of FontLoadFailed, FormulaNotEvaluable and StillSampling are
      the model's own wording: in the source, the first passes on whatever the
      font loader rejected with, the second is whatever evaluating the text
      as a script expression throws or yields, and the third has no
      counterpart. */
  function Message(e: Error): string
  {
    match e
    case UnsupportedColorFormat => "Unsupported color format. Use HEX or RGB."
    case InvalidHexColor => "Invalid HEX color."
    case InvalidRgbString => "Invalid RGB color string."
    case FontNotLoaded => "Font not loaded. Please call loadFont() first."
    case FontLoadFailed => "font could not be loaded"
    case EmptyCharset => "有效字符集不能为空"
    case FormulaNotEvaluable => "formula outside the arithmetic grammar"
    case StillSampling => "no non-negative formula within the sampling bound"
  }

  datatype Result<+T> = Ok(value: T) | Err(error: Error) {
    predicate IsFailure() { Err? }

    function PropagateFailure<U>(): Result<U>
      requires Err?
    {
      Err(error)
    }

    function Extract(): T
      requires Ok?
    {
      value
    }
  }
}
