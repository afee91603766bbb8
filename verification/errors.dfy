/** The exceptions the logger's configuration code can raise, one constructor per
    raise site (or per implicit `KeyError`/`TypeError` the code can run into). */
module Errors {

  datatype Error =
      /** `FileNotFoundError`: no configuration file of that name exists. */
    | ConfigNotFound(name: string)
      /** `FileNotFoundError`: the file exists but no loaded configuration came from it. */
    | NotInLoadedConfigs(name: string)
      /** `UnboundLocalError`: the loggers loop of the merge ran with no configuration at all. */
    | NoConfigs
      /** `KeyError`: a handler without a `class` entry. */
    | HandlerWithoutClass(handler: string)
      /** `KeyError`: a logger without a `level` entry. */
    | LoggerWithoutLevel(logger: string)
      /** `TypeError`: `min` over a level that cannot be ordered. */
    | UnorderableLevel(logger: string)
      /** `AttributeError`: a handler class that is not a string cannot be split. */
    | ClassNotString(handler: string)
      /** `ValueError`: the last dotted segment of the class names no known handler. */
    | UnknownHandlerClass(className: string)
      /** `KeyError`/`TypeError`: a handler names a formatter the merged config lacks. */
    | MissingFormatter(handler: string)
      /** `KeyError`: a formatter without a `format` entry. */
    | FormatterWithoutFormat(formatter: string)
      /** `ValueError`/`TypeError`: `setLevel` rejects the handler's level. */
    | InvalidLevel(handler: string)
}
