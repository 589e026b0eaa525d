/** An optional value, used for Swift's optional results
    (`TimeInterval(String)`, `WidgetTheme(rawValue:)`). */
module Wrappers {

  datatype Option<+T> = None | Some(value: T) {

    /** The wrapped value, or `default` when there is none (Swift's `??`). */
    function GetOr(default: T): T {
      match this
      case Some(v) => v
      case None => default
    }
  }
}
