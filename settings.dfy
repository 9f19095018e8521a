/**
 * `FalseIDESettings`: the IDE's workspace paths, mobile flag and logging
 * level. The setters keep a workspace path ending in the file separator
 * and ignore logging levels outside 1..4.
 */
module Settings {
  import opened JavaTypes

  /** `Ressources.LoggingLevels.EVERY`: log everything. */
  const MIN_LOGLEVEL: int := 1
  /** `Ressources.LoggingLevels.NONE`: log nothing. */
  const MAX_LOGLEVEL: int := 4

  predicate EndsWith(s: JString, suffix: JString)
  {
    |suffix| <= |s| && s[|s| - |suffix|..] == suffix
  }

  /** The path with the separator appended, unless it already ends with it. */
  function WithSeparator(path: JString, separator: JString): (r: JString)
    ensures EndsWith(r, separator)
    ensures |path| <= |r| && r[..|path|] == path
  {
    if EndsWith(path, separator) then path else path + separator
  }

  /** A path that already ends with the separator is kept as it is. */
  lemma WithSeparatorKeepsTerminated(path: JString, separator: JString)
    requires EndsWith(path, separator)
    ensures WithSeparator(path, separator) == path
  {
  }

  /** Appending the separator once is enough: the setters are idempotent. */
  lemma WithSeparatorIsIdempotent(path: JString, separator: JString)
    ensures WithSeparator(WithSeparator(path, separator), separator) == WithSeparator(path, separator)
  {
  }

  /** A path that does not end with the separator gets exactly one appended. */
  lemma WithSeparatorAppendsOnce(path: JString, separator: JString)
    requires !EndsWith(path, separator)
    ensures WithSeparator(path, separator) == path + separator
  {
  }

  class FalseIDESettings {
    var absoluteWorkSpace: JString
    var relativeWorkSpace: JString
    var mobileUse: bool
    var loggingLevel: int

    /** Settings with the four values the preferences hold. */
    constructor(absoluteWorkSpace: JString, relativeWorkSpace: JString, mobileUse: bool, loggingLevel: int)
      ensures this.absoluteWorkSpace == absoluteWorkSpace && this.relativeWorkSpace == relativeWorkSpace
      ensures this.mobileUse == mobileUse && this.loggingLevel == loggingLevel
    {
      this.absoluteWorkSpace := absoluteWorkSpace;
      this.relativeWorkSpace := relativeWorkSpace;
      this.mobileUse := mobileUse;
      this.loggingLevel := loggingLevel;
    }

    /** The copy constructor copies all four fields. */
    constructor Copy(copy: FalseIDESettings)
      ensures absoluteWorkSpace == copy.absoluteWorkSpace && relativeWorkSpace == copy.relativeWorkSpace
      ensures mobileUse == copy.mobileUse && loggingLevel == copy.loggingLevel
    {
      absoluteWorkSpace := copy.absoluteWorkSpace;
      relativeWorkSpace := copy.relativeWorkSpace;
      mobileUse := copy.mobileUse;
      loggingLevel := copy.loggingLevel;
    }

    /**
     * `getWorkSpace`: the absolute workspace; in mobile use the absolute
     * form of the relative one (`absolutePath`), ending in the separator.
     */
    function GetWorkSpace(absolutePath: JString -> JString, separator: JString): (r: JString)
      reads this
      ensures !mobileUse ==> r == absoluteWorkSpace
      ensures mobileUse ==>
        EndsWith(r, separator) && |absolutePath(relativeWorkSpace)| <= |r|
        && r[..|absolutePath(relativeWorkSpace)|] == absolutePath(relativeWorkSpace)
    {
      if !mobileUse then absoluteWorkSpace else WithSeparator(absolutePath(relativeWorkSpace), separator)
    }

    method SetAbsoluteWorkSpace(newWorkSpace: JString, separator: JString)
      modifies this`absoluteWorkSpace
      ensures absoluteWorkSpace == WithSeparator(newWorkSpace, separator)
    {
      var path := newWorkSpace;
      if !EndsWith(path, separator) {
        path := path + separator;
      }
      absoluteWorkSpace := path;
    }

    method SetRelativeWorkSpace(relativeWorkSpace: JString, separator: JString)
      modifies this`relativeWorkSpace
      ensures this.relativeWorkSpace == WithSeparator(relativeWorkSpace, separator)
    {
      var path := relativeWorkSpace;
      if !EndsWith(path, separator) {
        path := path + separator;
      }
      this.relativeWorkSpace := path;
    }

    method SetMobileUse(mu: bool)
      modifies this`mobileUse
      ensures mobileUse == mu
    {
      mobileUse := mu;
    }

    /** `setLoggingLevel`: only a level in 1..4 is stored; any other leaves the level as it was. */
    method SetLoggingLevel(loggingLevel: int)
      modifies this`loggingLevel
      ensures MIN_LOGLEVEL <= loggingLevel <= MAX_LOGLEVEL ==> this.loggingLevel == loggingLevel
      ensures !(MIN_LOGLEVEL <= loggingLevel <= MAX_LOGLEVEL) ==> this.loggingLevel == old(this.loggingLevel)
      ensures MIN_LOGLEVEL <= old(this.loggingLevel) <= MAX_LOGLEVEL ==> MIN_LOGLEVEL <= this.loggingLevel <= MAX_LOGLEVEL
    {
      if loggingLevel >= MIN_LOGLEVEL && loggingLevel <= MAX_LOGLEVEL {
        this.loggingLevel := loggingLevel;
      }
    }

    /** `isToBeLogged`: an error is logged when its level is at least the configured one. */
    predicate IsToBeLogged(errorsLogLevel: int)
      reads this
    {
      errorsLogLevel >= loggingLevel
    }
  }

  /**
   * Logging is monotone in the error's level: what is logged at one level is
   * logged at every higher one; at level 1 every level from 1 up is logged,
   * at level 4 nothing below 4.
   */
  lemma LoggingIsMonotone(s: FalseIDESettings, level: int, higher: int)
    requires level <= higher
    ensures s.IsToBeLogged(level) ==> s.IsToBeLogged(higher)
    ensures s.loggingLevel == MIN_LOGLEVEL ==> (s.IsToBeLogged(level) <==> level >= MIN_LOGLEVEL)
    ensures s.loggingLevel == MAX_LOGLEVEL && level < MAX_LOGLEVEL ==> !s.IsToBeLogged(level)
  {
  }
}
