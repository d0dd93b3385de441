/** Small shared vocabulary: optional values (the PHP `null`) and PHP's `empty()` on strings. */
module Common {

  /** A value that may be absent; `None` stands for PHP `null` or `false`. */
  datatype Option<+T> = None | Some(value: T) {
    function GetOr(default: T): T {
      match this
      case Some(v) => v
      case None => default
    }
  }

  /** PHP `empty()` on a nullable string: null, "" and "0" all count as empty. */
  predicate Blank(s: Option<string>) {
    s.None? || s.value == "" || s.value == "0"
  }

  /** PHP `!empty()` on a nullable integer column: null and 0 are empty. */
  predicate SetInt(n: Option<int>) {
    n.Some? && n.value != 0
  }
}
