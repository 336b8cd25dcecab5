/// The .NET number-text conversions the calculator calls, which this model does
/// not reproduce: `double.TryParse` under the current culture,
/// `double.Parse` under the invariant culture and `double.ToString` under the
/// invariant culture. They are a parameter of every member that needs them.
module NumberText {
  import opened Wrappers

  /** The three conversions; a parse that fails gives `None`. */
  datatype Conversions = Conversions(
    tryParse: string -> Option<real>,
    parseInvariant: string -> Option<real>,
    formatInvariant: real -> string)

  /** `double.TryParse(s, out _)`. */
  predicate IsNumber(num: Conversions, s: string) { num.tryParse(s).Some? }

  /** The message of the `FormatException` thrown by a failed `double.Parse`. */
  function FormatErrorMessage(s: string): string {
    "The input string '" + s + "' was not in a correct format."
  }
}
