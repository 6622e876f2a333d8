/** The few pieces of the Kotlin/JVM runtime that the view-model layer leans on:
    nullable values, exceptions and their messages, and the String helpers the
    validators call (`isNotEmpty`, `isNotBlank`, `toBoolean`, string templates). */
module KotlinRuntime {

  /** A Kotlin nullable `T?`: `None` is `null`. */
  datatype Option<+T> = None | Some(value: T) {
    function GetOr(default: T): T {
      match this
      case Some(v) => v
      case None => default
    }
  }

  /** A JVM `Throwable`: its class name, its (localized) message and its cause.
      No class in this application overrides `getLocalizedMessage`, so the
      localized message and the message are the same value. */
  datatype Throwable = Throwable(className: string, message: Option<string>, cause: Option<Throwable>)

  const IllegalArgumentClass: string := "java.lang.IllegalArgumentException"

  /** `Throwable.toString()`: the class name, then ": " and the message when there is one. */
  function Describe(t: Throwable): (r: string)
    ensures t.message.None? ==> r == t.className
    ensures t.message.Some? ==> |r| == |t.className| + 2 + |t.message.value|
    ensures r[..|t.className|] == t.className
  {
    match t.message
    case None => t.className
    case Some(m) => t.className + ": " + m
  }

  /** `IllegalArgumentException(message)`. */
  function IllegalArgument(message: string): (t: Throwable)
    ensures t.message == Some(message) && t.cause == None
    ensures t.className == IllegalArgumentClass
  {
    Throwable(IllegalArgumentClass, Some(message), None)
  }

  /** `IllegalArgumentException(cause)`: the JDK sets the message to
      `cause.toString()`, or leaves it null when the cause is null. */
  function IllegalArgumentCausedBy(cause: Option<Throwable>): (t: Throwable)
    ensures t.cause == cause
    ensures cause.None? <==> t.message.None?
    ensures cause.Some? ==> t.message == Some(Describe(cause.value))
  {
    Throwable(IllegalArgumentClass, if cause.Some? then Some(Describe(cause.value)) else None, cause)
  }

  /** `e?.localizedMessage` for a possibly-null error. */
  function MessageOf(e: Option<Throwable>): (m: Option<string>)
    ensures e.None? ==> m.None?
    ensures e.Some? ==> m == e.value.message
  {
    if e.Some? then e.value.message else None
  }

  /** What a string template or `String.plus` writes for a nullable string:
      the text itself, or the four letters "null". */
  function TemplateOf(s: Option<string>): (r: string)
    ensures s.None? ==> r == "null"
    ensures s.Some? ==> r == s.value
  {
    s.GetOr("null")
  }

  /** `Boolean.toString()`. */
  function BoolText(b: bool): (r: string)
    ensures r == "true" || r == "false"
    ensures |r| == (if b then 4 else 5)
  {
    if b then "true" else "false"
  }

  /** `Char.isWhitespace()` on the JVM: `Character.isWhitespace(c) || Character.isSpaceChar(c)`,
      i.e. the ASCII controls TAB..CR and FS..US, and every Unicode space, line or
      paragraph separator (non-breaking spaces included). */
  predicate IsWhitespace(c: char) {
    var n := c as int;
    || (9 <= n <= 13)
    || (0x1C <= n <= 0x20)
    || n == 0xA0
    || n == 0x1680
    || (0x2000 <= n <= 0x200A)
    || n == 0x2028 || n == 0x2029
    || n == 0x202F || n == 0x205F
    || n == 0x3000
  }

  /** `CharSequence.isNotEmpty()`. */
  predicate IsNotEmpty(s: string) {
    |s| > 0
  }

  /** `CharSequence.isBlank()`: empty, or whitespace only. */
  predicate IsBlank(s: string) {
    forall i :: 0 <= i < |s| ==> IsWhitespace(s[i])
  }

  /** `CharSequence.isNotBlank()`: some character is not whitespace. */
  predicate IsNotBlank(s: string) {
    !IsBlank(s)
  }

  /** A non-blank string is a non-empty one; the converse fails on whitespace. */
  lemma NotBlankIsNotEmpty(s: string)
    ensures IsNotBlank(s) ==> IsNotEmpty(s)
    ensures IsNotEmpty(" ") && !IsNotBlank(" ")
  {
    assert IsWhitespace(" "[0]);
  }

  /** ASCII lower-casing of one character. */
  function LowerAscii(c: char): (r: char)
    ensures 'A' <= c <= 'Z' ==> 'a' <= r <= 'z'
    ensures !('A' <= c <= 'Z') ==> r == c
  {
    if 'A' <= c <= 'Z' then (c as int + 32) as char else c
  }

  /** `String?.toBoolean()`, which is `java.lang.Boolean.parseBoolean`: true exactly
      for a non-null string equal to "true" ignoring case. For the four letters of
      "true" the JVM's Unicode case rules identify only the ASCII upper and lower
      forms, so ASCII folding is exact here. */
  predicate ToBoolean(s: Option<string>) {
    && s.Some?
    && |s.value| == 4
    && LowerAscii(s.value[0]) == 't'
    && LowerAscii(s.value[1]) == 'r'
    && LowerAscii(s.value[2]) == 'u'
    && LowerAscii(s.value[3]) == 'e'
  }

  /** `toBoolean` reads back what `Boolean.toString()` wrote, and is case-insensitive. */
  lemma ToBooleanReadsBoolText(b: bool)
    ensures ToBoolean(Some(BoolText(b))) == b
    ensures ToBoolean(Some("TRUE")) && ToBoolean(Some("True"))
    ensures !ToBoolean(None) && !ToBoolean(Some("")) && !ToBoolean(Some("yes"))
  {
  }
}
