/** The shapes of the converter's options and plugins (src/types.ts). */
module Types {
  import opened Wrappers

  /** Document metadata carried through the conversion but not interpreted. */
  datatype Metadata = Metadata(title: Option<string>, author: Option<string>)

  /** The conversion options other than the plugin list.  A hook receives these:
      a Dafny datatype cannot hold a function that takes the datatype itself. */
  datatype Settings = Settings(
    outputFormat: string,
    outputPath: Option<string>,
    cssFile: Option<string>,
    metadata: Option<Metadata>)

  /** The argument each `afterConvert` hook is called with. */
  datatype AfterConvertArgs = AfterConvertArgs(outputPath: string, options: Settings)

  /** `beforeConvert(content, options)`: rewrites the Markdown source. */
  type BeforeHook = (string, Settings) -> string

  /** `afterConvert(result)`: its return value is ignored by the converter. */
  type AfterHook = AfterConvertArgs -> ()

  /** A plugin may implement either hook, both, or neither. */
  datatype ConverterPlugin = ConverterPlugin(
    beforeConvert: Option<BeforeHook>,
    afterConvert: Option<AfterHook>)

  datatype ConversionOptions = ConversionOptions(
    settings: Settings,
    plugins: Option<seq<ConverterPlugin>>)
  {
    /** The plugin list, where an absent list behaves as an empty one. */
    function PluginList(): seq<ConverterPlugin> {
      plugins.GetOr([])
    }
  }
}
