/** The moderation status of recipes and posts, and its lenient parser. */
module ContentStatus {
  import opened Wrappers
  import opened Text
  import opened JavaLang

  datatype Status = PENDING | PUBLISHED | REJECTED

  /** `name()`. */
  function Name(s: Status): (n: string)
    ensures IsConstantName(n)
  {
    match s
    case PENDING => "PENDING"
    case PUBLISHED => "PUBLISHED"
    case REJECTED => "REJECTED"
  }

  /** `ContentStatus.valueOf`: the constant with exactly this name, if any. */
  function ValueOf(key: string): (r: Option<Status>)
    ensures r.None? ==> forall s :: Name(s) != key
    ensures r.Some? ==> Name(r.value) == key
  {
    if key == "PENDING" then Some(PENDING)
    else if key == "PUBLISHED" then Some(PUBLISHED)
    else if key == "REJECTED" then Some(REJECTED)
    else None
  }

  /**
   * `fromString`: a missing value and any text that is not a status name
   * once trimmed and upper-cased become PENDING; it never fails.
   */
  function FromString(value: Option<string>): (r: Status)
    ensures value.None? ==> r == PENDING
    ensures r != PENDING ==> value.Some? && ParseKey(value.value) == Name(r)
  {
    if value.None? then PENDING
    else
      match ValueOf(ParseKey(value.value))
      case Some(s) => s
      case None => PENDING
  }

  /** Every status survives `fromString(s.name())`. */
  lemma FromStringName(s: Status)
    ensures FromString(Some(Name(s))) == s
  {
    ParseKeyOfName(Name(s));
  }

  /** Parsing ignores letter case and the padding `trim` removes. */
  lemma FromStringLenient(pre: string, v: string, post: string, s: Status)
    requires EqualsIgnoreCase(v, Name(s))
    requires AllSpace(pre, JavaSpaces) && AllSpace(post, JavaSpaces)
    ensures FromString(Some(pre + v + post)) == s
  {
    ParseKeyOfVariant(pre, v, post, Name(s));
  }

  /** Text that names no status, in any case or padding, falls back to PENDING. */
  lemma UnknownIsPending(value: string)
    requires forall s :: ParseKey(value) != Name(s)
    ensures FromString(Some(value)) == PENDING
  {
  }
}
