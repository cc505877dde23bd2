/** The error classes the converter throws (src/errors.ts). */
module Errors {

  /** `PluginError` is declared by the library but never thrown by the converter. */
  datatype ConverterError =
    | FileReadError(message: string)
    | ConversionError(message: string)
    | PluginError(message: string)
}
