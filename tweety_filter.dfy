/**
 * The console filter: which log lines are hidden from the server console,
 * and the three hooks (java.util.logging, System.out and Log4j) that
 * consult it.  The colour codes, the main command's aliases and the
 * plugin's own filter list (absent while no plugin instance exists) are
 * parameters.
 */
module TweetyFilter {
  import opened Wrappers
  import opened Strings

  /** The section sign that starts a Minecraft colour code. */
  const COLOR_CHAR: char := '§'

  const JNDI_LOOKUP: string := "${jndi:ldap:"
  const NASHORN_WARNING: string := "Warning: Nashorn engine is planned to be removed from a future JDK release"
  const LOADBEFORE_NOTICE: string := "which is not a depend, softdepend or loadbefore of this plugin."
  const COMMAND_ISSUED: string := "issued server command: /"
  const FLP_COMMAND: string := "issued server command: /#flp"

  /** `String.contains`: the empty string is contained in every string. */
  predicate JContains(s: string, d: string) {
    |d| == 0 || Contains(s, d)
  }

  /** Both spellings of one colour code removed: "&c" and "§c". */
  function StripCode(m: string, code: char): string {
    Replace(Replace(m, ['&', code], ""), [COLOR_CHAR, code], "")
  }

  /** Every colour code removed, in the order of `codes`. */
  function StripColors(m: string, codes: seq<char>): string
    decreases |codes|
  {
    if codes == [] then m else StripColors(StripCode(m, codes[0]), codes[1..])
  }

  /** A user filter, lower-cased, at the start of or anywhere in the lower-cased message. */
  predicate FilterMatches(lower: string, filter: string) {
    StartsWith(lower, ToLower(filter)) || JContains(lower, ToLower(filter))
  }

  /** The checks that apply only once the main command has aliases. */
  predicate CommandFiltered(lower: string, aliases: seq<string>, filters: Option<seq<string>>) {
    && |aliases| > 0
    && (|| JContains(lower, COMMAND_ISSUED + aliases[0] + " internal")
        || JContains(lower, FLP_COMMAND)
        || (filters.Some? && exists i :: 0 <= i < |filters.value| && FilterMatches(lower, filters.value[i])))
  }

  /** Whether `isFiltered` hides the message. */
  predicate Filtered(message: Option<string>, codes: seq<char>, aliases: seq<string>, filters: Option<seq<string>>) {
    && message.Some? && message.value != ""
    && var m := StripColors(message.value, codes);
       || JContains(m, JNDI_LOOKUP)
       || m == NASHORN_WARNING
       || EndsWith(m, LOADBEFORE_NOTICE)
       || CommandFiltered(ToLower(m), aliases, filters)
  }

  /**
   * `isFiltered`: null and empty messages pass; the colour codes are
   * removed one by one, then the fixed messages are checked, and only when
   * the main command has aliases the built-in commands and the user's
   * filters, all on the lower-cased message.
   */
  method IsFiltered(message: Option<string>, codes: seq<char>, aliases: seq<string>, filters: Option<seq<string>>)
    returns (r: bool)
    ensures r == Filtered(message, codes, aliases, filters)
  {
    if message.None? || message.value == "" {
      return false;
    }
    var m := message.value;
    for i := 0 to |codes|
      invariant StripColors(m, codes[i..]) == StripColors(message.value, codes)
    {
      assert codes[i..][1..] == codes[i + 1..];
      m := Replace(m, ['&', codes[i]], "");
      m := Replace(m, [COLOR_CHAR, codes[i]], "");
    }
    assert codes[|codes|..] == [];
    if JContains(m, JNDI_LOOKUP) {
      return true;
    }
    if m == NASHORN_WARNING {
      return true;
    }
    if EndsWith(m, LOADBEFORE_NOTICE) {
      return true;
    }
    m := ToLower(m);
    if |aliases| > 0 {
      if JContains(m, COMMAND_ISSUED + aliases[0] + " internal") || JContains(m, FLP_COMMAND) {
        return true;
      }
      if filters.Some? {
        var all := filters.value;
        for i := 0 to |all|
          invariant forall j :: 0 <= j < i ==> !FilterMatches(m, all[j])
        {
          var filter := ToLower(all[i]);
          if StartsWith(m, filter) || JContains(m, filter) {
            return true;
          }
        }
      }
    }
    return false;
  }

  /** A message without '&' or the section sign has no colour code to remove. */
  lemma {:induction false} PlainUnchanged(m: string, codes: seq<char>)
    requires '&' !in m && COLOR_CHAR !in m
    ensures StripColors(m, codes) == m
    decreases |codes|
  {
    if codes != [] {
      ReplaceAbsent(m, ['&', codes[0]], "");
      ReplaceAbsent(m, [COLOR_CHAR, codes[0]], "");
      PlainUnchanged(m, codes[1..]);
    }
  }

  /** Null and the empty message are never hidden. */
  lemma NullOrEmptyPasses(codes: seq<char>, aliases: seq<string>, filters: Option<seq<string>>)
    ensures !Filtered(None, codes, aliases, filters) && !Filtered(Some(""), codes, aliases, filters)
  {
  }

  /**
   * A plain message holding a JNDI lookup, the Nashorn warning, or ending in
   * the load-order notice is hidden whatever the aliases and filters.
   */
  lemma FixedMessagesFiltered(m: string, codes: seq<char>, aliases: seq<string>, filters: Option<seq<string>>)
    requires '&' !in m && COLOR_CHAR !in m
    requires Contains(m, JNDI_LOOKUP) || m == NASHORN_WARNING || EndsWith(m, LOADBEFORE_NOTICE)
    ensures Filtered(Some(m), codes, aliases, filters)
  {
    PlainUnchanged(m, codes);
  }

  /** Before the main command has aliases only the fixed messages are hidden. */
  lemma NoAliasesOnlyFixed(message: string, codes: seq<char>, filters: Option<seq<string>>)
    requires message != ""
    ensures var m := StripColors(message, codes);
      Filtered(Some(message), codes, [], filters) <==>
        JContains(m, JNDI_LOOKUP) || m == NASHORN_WARNING || EndsWith(m, LOADBEFORE_NOTICE)
  {
  }

  /**
   * The prefix test of a user filter adds nothing: a filter matches exactly
   * when the lower-cased message contains it.
   */
  lemma FilterMatchesIsContains(lower: string, filter: string)
    ensures FilterMatches(lower, filter) <==> JContains(lower, ToLower(filter))
  {
    var f := ToLower(filter);
    if StartsWith(lower, f) && |f| > 0 {
      assert MatchAt(lower, f, 0);
      ContainsIff(lower, f);
    }
  }

  /**
   * Once there are aliases, a plain message is hidden when its lower-cased
   * text contains some user filter, compared without regard to case.
   */
  lemma UserFilterHides(m: string, codes: seq<char>, aliases: seq<string>, filters: seq<string>, i: int)
    requires '&' !in m && COLOR_CHAR !in m && m != ""
    requires |aliases| > 0 && 0 <= i < |filters|
    requires JContains(ToLower(m), ToLower(filters[i]))
    ensures Filtered(Some(m), codes, aliases, Some(filters))
  {
    PlainUnchanged(m, codes);
    assert FilterMatches(ToLower(m), filters[i]);
  }

  /** An empty user filter hides every non-empty message once there are aliases. */
  lemma EmptyFilterHidesAll(m: string, codes: seq<char>, aliases: seq<string>, filters: seq<string>)
    requires m != "" && |aliases| > 0 && "" in filters
    ensures Filtered(Some(m), codes, aliases, Some(filters))
  {
    var i :| 0 <= i < |filters| && filters[i] == "";
    assert FilterMatches(ToLower(StripColors(m, codes)), filters[i]);
  }

  /** `FilterLegacy.isLoggable`: a record is logged exactly when its message is not hidden. */
  function IsLoggable(message: Option<string>, codes: seq<char>, aliases: seq<string>, filters: Option<seq<string>>)
    : (r: bool)
    ensures r <==> !Filtered(message, codes, aliases, filters)
  {
    !Filtered(message, codes, aliases, filters)
  }

  /** The Log4j verdicts `checkMessage` chooses between. */
  datatype FilterResult = Deny | Neutral

  /** `FilterLog4j.checkMessage`: DENY for a hidden message, NEUTRAL otherwise. */
  function CheckMessage(message: Option<string>, codes: seq<char>, aliases: seq<string>, filters: Option<seq<string>>)
    : (r: FilterResult)
    ensures r == Deny <==> Filtered(message, codes, aliases, filters)
    ensures r == Neutral <==> !Filtered(message, codes, aliases, filters)
  {
    if Filtered(message, codes, aliases, filters) then Deny else Neutral
  }

  /** `FilterSystem`: the replacement for `System.out`, with the lines it passed on. */
  class FilterSystem {
    var printed: seq<string>

    constructor ()
      ensures printed == []
    {
      printed := [];
    }

    /** `println(String)`: a non-null line that is not hidden goes through. */
    method PrintlnString(x: Option<string>, codes: seq<char>, aliases: seq<string>, filters: Option<seq<string>>)
      modifies this
      ensures x.Some? && !Filtered(x, codes, aliases, filters) ==> printed == old(printed) + [x.value]
      ensures !(x.Some? && !Filtered(x, codes, aliases, filters)) ==> printed == old(printed)
    {
      if x.Some? {
        var hidden := IsFiltered(x, codes, aliases, filters);
        if !hidden {
          printed := printed + [x.value];
        }
      }
    }

    /**
     * `println(Object)`: the same test on the object's `toString`; what is
     * printed is that text.
     */
    method PrintlnObject<T>(x: Option<T>, show: T -> string, codes: seq<char>, aliases: seq<string>, filters: Option<seq<string>>)
      modifies this
      ensures x.Some? && !Filtered(Some(show(x.value)), codes, aliases, filters) ==> printed == old(printed) + [show(x.value)]
      ensures !(x.Some? && !Filtered(Some(show(x.value)), codes, aliases, filters)) ==> printed == old(printed)
    {
      if x.Some? {
        var text := show(x.value);
        var hidden := IsFiltered(Some(text), codes, aliases, filters);
        if !hidden {
          printed := printed + [text];
        }
      }
    }
  }
}
