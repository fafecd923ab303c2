/**
 * The part of StatusValue the lock manager and the parser-output access
 * rely on: an OK flag, the list of error and warning messages, and an
 * optional result value.
 */
module StatusValues {
  import opened Wrappers

  datatype MessageKind = Error | Warning

  datatype Message = Message(kind: MessageKind, key: string, params: seq<string>)

  datatype Status<T> = Status(ok: bool, messages: seq<Message>, value: Option<T>)

  /** `StatusValue::newGood( $value )`. */
  function NewGood<T>(value: Option<T>): Status<T> {
    Status(true, [], value)
  }

  /** `StatusValue::newFatal( $key, ...$params )`. */
  function NewFatal<T>(key: string, params: seq<string>): Status<T> {
    Status(false, [Message(Error, key, params)], None)
  }

  /** `$s->merge( $other )`: OK only if both are, messages of both in order, own value kept. */
  function Merge<T, U>(s: Status<T>, other: Status<U>): Status<T> {
    Status(s.ok && other.ok, s.messages + other.messages, s.value)
  }

  /** `$s->fatal( $key, ...$params )`. */
  function Fatal<T>(s: Status<T>, key: string, params: seq<string>): Status<T> {
    Status(false, s.messages + [Message(Error, key, params)], s.value)
  }

  /** `$s->warning( $key )`. */
  function AddWarning<T>(s: Status<T>, key: string): Status<T> {
    Status(s.ok, s.messages + [Message(Warning, key, [])], s.value)
  }

  /** `$s->setResult( $ok, $value )`. */
  function SetResult<T>(s: Status<T>, ok: bool, value: T): Status<T> {
    Status(ok, s.messages, Some(value))
  }

  /** OK with no message at all. */
  predicate IsGood<T>(s: Status<T>) {
    s.ok && s.messages == []
  }
}
