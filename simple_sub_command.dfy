/**
 * A subcommand of a command group: its label splits into alternative
 * sublabels, the first of which is current until the command runs, and a
 * permission still at its default is specialised to the subcommand.  The
 * parent command's raw and default permissions, its placeholder
 * replacement and the plugin's main command label are parameters, since
 * `SimpleCommand` is not part of this model.
 */
module SimpleSubCommand {
  import opened Wrappers
  import opened Strings

  /** The characters of the split pattern `(\||\/)`. */
  const SEPARATORS: set<char> := {'|', '/'}

  const LABEL_PLACEHOLDER: string := "{label}"
  const SUBLABEL_PLACEHOLDER: string := "{sublabel}"

  datatype Error = NoSublabel  // `Valid.checkBoolean(sublabels.length > 0, ...)`

  /** The alternative sublabels written in one label, as `split` gives them. */
  function Sublabels(written: string): seq<string> {
    JavaSplitAny(written, SEPARATORS)
  }

  /**
   * The permission after construction: a default permission becomes
   * "{sublabel}"-based, by replacing "{label}" under the main command and by
   * appending ".{sublabel}" under any other; any other permission stays.
   */
  function ImprovedPermission(raw: string, defaultPermission: string, parentLabel: string, mainCommandLabel: Option<string>)
    : (r: string)
    ensures raw != defaultPermission ==> r == raw
    ensures raw == defaultPermission && mainCommandLabel != Some(parentLabel) ==> r == raw + "." + SUBLABEL_PLACEHOLDER
    ensures raw == defaultPermission && mainCommandLabel == Some(parentLabel) && Contains(raw, LABEL_PLACEHOLDER) ==>
      Contains(r, SUBLABEL_PLACEHOLDER)
  {
    if raw == defaultPermission then
      if mainCommandLabel == Some(parentLabel) then
        ReplaceInserts(raw, LABEL_PLACEHOLDER, SUBLABEL_PLACEHOLDER);
        Replace(raw, LABEL_PLACEHOLDER, SUBLABEL_PLACEHOLDER)
      else raw + "." + SUBLABEL_PLACEHOLDER
    else raw
  }

  /** Replacing a target that occurs leaves the replacement in the result. */
  lemma ReplaceInserts(s: string, t: string, x: string)
    requires |t| > 0 && |x| > 0
    ensures Contains(s, t) ==> Contains(Replace(s, t, x), x)
  {
    if !Contains(s, t) {
      return;
    }
    var parts := RawSplit(s, t);
    var i := IndexFrom(s, t, 0);
    assert parts == [s[..i]] + RawSplit(s[i + |t|..], t);
    var r := Join(x, parts);
    assert r == parts[0] + x + Join(x, parts[1..]);
    assert r[|parts[0]|..|parts[0]| + |x|] == x;
    assert MatchAt(r, x, |parts[0]|);
    ContainsIff(r, x);
  }

  predicate AllEmpty(pieces: seq<string>) {
    forall k :: 0 <= k < |pieces| ==> pieces[k] == ""
  }

  predicate AllSeparators(s: string) {
    forall i :: 0 <= i < |s| ==> s[i] in SEPARATORS
  }

  lemma ConsAllEmpty(x: string, rest: seq<string>)
    ensures AllEmpty([x] + rest) <==> x == "" && AllEmpty(rest)
  {
    var all := [x] + rest;
    if AllEmpty(all) {
      assert all[0] == x;
      forall k | 0 <= k < |rest| ensures rest[k] == "" {
        assert rest[k] == all[k + 1];
      }
    }
    if x == "" && AllEmpty(rest) {
      forall k | 0 <= k < |all| ensures all[k] == "" {
        if k > 0 {
          assert all[k] == rest[k - 1];
        }
      }
    }
  }

  lemma ConsAllSeparators(s: string)
    requires s != []
    ensures AllSeparators(s) <==> s[0] in SEPARATORS && AllSeparators(s[1..])
  {
    assert forall j :: 0 <= j < |s| - 1 ==> s[1..][j] == s[j + 1];
    if s[0] in SEPARATORS && AllSeparators(s[1..]) {
      forall i | 0 <= i < |s| ensures s[i] in SEPARATORS {
        if i > 0 {
          assert s[i] == s[1..][i - 1];
        }
      }
    }
  }

  /** The raw pieces are all empty exactly when the label is made of separators only. */
  lemma {:induction false} RawPiecesEmpty(s: string)
    ensures AllEmpty(RawSplitAny(s, SEPARATORS)) <==> AllSeparators(s)
    decreases |s|
  {
    var i := SepFrom(s, SEPARATORS, 0);
    if i >= 0 {
      RawPiecesEmpty(s[i + 1..]);
      RawPiecesEmptyStep(s, i);
    } else {
      NoSeparatorPiece(s);
    }
  }

  /** Without a separator the only piece is the label itself. */
  lemma NoSeparatorPiece(s: string)
    requires SepFrom(s, SEPARATORS, 0) < 0
    ensures AllEmpty(RawSplitAny(s, SEPARATORS)) <==> AllSeparators(s)
  {
    assert RawSplitAny(s, SEPARATORS) == [s];
    if s != [] {
      assert s[0] !in SEPARATORS;
      assert [s][0] != "";
    }
  }

  /** The step of `RawPiecesEmpty` at the first separator, index `i`. */
  lemma RawPiecesEmptyStep(s: string, i: int)
    requires i == SepFrom(s, SEPARATORS, 0) && i >= 0
    requires AllEmpty(RawSplitAny(s[i + 1..], SEPARATORS)) <==> AllSeparators(s[i + 1..])
    ensures AllEmpty(RawSplitAny(s, SEPARATORS)) <==> AllSeparators(s)
  {
    var rest := RawSplitAny(s[i + 1..], SEPARATORS);
    assert RawSplitAny(s, SEPARATORS) == [s[..i]] + rest;
    ConsAllEmpty(s[..i], rest);
    ConsAllSeparators(s);
    if i > 0 {
      assert s[0] !in SEPARATORS;
      assert |s[..i]| > 0;
    } else {
      assert s[i + 1..] == s[1..];
    }
  }

  /**
   * A label yields no sublabel, and construction fails, exactly when it is
   * non-empty and made of '|' and '/' only.
   */
  lemma NoSublabelIff(written: string)
    ensures |Sublabels(written)| == 0 <==> written != "" && AllSeparators(written)
  {
    var raw := RawSplitAny(written, SEPARATORS);
    RawPiecesEmpty(written);
    if SepFrom(written, SEPARATORS, 0) < 0 {
      if written != "" {
        assert written[0] !in SEPARATORS;
      }
    } else {
      var r := DropTrailingEmpty(raw);
      assert written != "";
      if r != [] {
        assert r[|r| - 1] == raw[|r| - 1];
      }
    }
  }

  /** No sublabel holds a separator. */
  lemma SublabelsPlain(written: string, k: int)
    requires 0 <= k < |Sublabels(written)|
    ensures NoSep(Sublabels(written)[k], SEPARATORS)
  {
    if SepFrom(written, SEPARATORS, 0) < 0 {
      assert Sublabels(written) == [written];
      assert forall i :: 0 <= i < |written| ==> written[i] !in SEPARATORS;
    } else {
      RawSplitAnyPiece(written, SEPARATORS, k);
    }
  }

  class SubCommand {
    /** The label of the command group this subcommand belongs to. */
    const mainLabel: string
    const sublabels: seq<string>
    /** The sublabel last used; the first one until the subcommand runs. */
    var sublabel: string
    var permission: string

    ghost predicate Valid()
      reads this
    {
      |sublabels| > 0 && sublabel in sublabels
    }

    constructor (parentLabel: string, labels: seq<string>, permission: string)
      requires |labels| > 0
      ensures Valid()
      ensures mainLabel == parentLabel && sublabels == labels && sublabel == labels[0]
      ensures this.permission == permission
    {
      mainLabel := parentLabel;
      sublabels := labels;
      sublabel := labels[0];
      this.permission := permission;
    }

    /**
     * `replacePlaceholders`: the parent's replacements, given as
     * `parentReplace`, then "{sublabel}" becomes the current sublabel.
     */
    function ReplacePlaceholders(message: string, parentReplace: string -> string): (r: string)
      reads this
      ensures parentReplace(message) == SUBLABEL_PLACEHOLDER ==> r == sublabel
      ensures '{' !in parentReplace(message) ==> r == parentReplace(message)
    {
      var replaced := parentReplace(message);
      SplitWhole(replaced, SUBLABEL_PLACEHOLDER, sublabel);
      BraceFree(replaced, sublabel);
      Replace(replaced, SUBLABEL_PLACEHOLDER, sublabel)
    }

    /**
     * `equals`: another subcommand with element-wise equal sublabels; null
     * and anything that is not a subcommand are unequal.
     */
    function Equals(obj: Option<SubCommand>): (r: bool)
      reads this, if obj.Some? then {obj.value} else {}
      ensures r <==> obj.Some? && |obj.value.sublabels| == |sublabels|
                     && forall i :: 0 <= i < |sublabels| ==> obj.value.sublabels[i] == sublabels[i]
    {
      obj.Some? && obj.value.sublabels == sublabels
    }
  }

  /** A string that is exactly the target splits into two empty pieces around it, so it is replaced whole. */
  lemma SplitWhole(s: string, t: string, x: string)
    requires |t| > 0
    ensures s == t ==> RawSplit(s, t) == ["", ""] && Replace(s, t, x) == x
  {
    if s != t {
      return;
    }
    assert MatchAt(s, t, 0);
    assert s[|t|..] == "";
    assert RawSplit("", t) == [""];
    assert Join(x, ["", ""]) == "" + x + Join(x, [""]);
  }

  /** Text without '{' holds no placeholder to replace. */
  lemma BraceFree(s: string, x: string)
    ensures '{' !in s ==> Replace(s, SUBLABEL_PLACEHOLDER, x) == s
  {
    if '{' !in s {
      ReplaceAbsent(s, SUBLABEL_PLACEHOLDER, x);
    }
  }

  /** Subcommand equality is reflexive and symmetric. */
  lemma EqualsEquivalence(a: SubCommand, b: SubCommand)
    ensures a.Equals(Some(a))
    ensures a.Equals(Some(b)) <==> b.Equals(Some(a))
  {
  }

  /**
   * The `SimpleSubCommand(parent, sublabel)` constructor: the label is split
   * into sublabels, at least one is required, the first is current, and the
   * permission is improved when it is still the default.
   */
  method Create(parentLabel: string, written: string, rawPermission: string, defaultPermission: string,
                mainCommandLabel: Option<string>)
    returns (r: Result<SubCommand, Error>)
    ensures r.Err? <==> |Sublabels(written)| == 0
    ensures r.Err? ==> r.error == NoSublabel
    ensures r.Ok? ==> fresh(r.value) && r.value.Valid()
    ensures r.Ok? ==> r.value.mainLabel == parentLabel && r.value.sublabels == Sublabels(written)
    ensures r.Ok? ==> r.value.sublabel == Sublabels(written)[0]
    ensures r.Ok? ==> r.value.permission == ImprovedPermission(rawPermission, defaultPermission, parentLabel, mainCommandLabel)
  {
    var labels := Sublabels(written);
    if |labels| == 0 {
      return Err(NoSublabel);
    }
    var command := new SubCommand(parentLabel, labels, rawPermission);
    if rawPermission == defaultPermission {
      if mainCommandLabel == Some(parentLabel) {
        command.permission := Replace(rawPermission, LABEL_PLACEHOLDER, SUBLABEL_PLACEHOLDER);
      } else {
        command.permission := rawPermission + "." + SUBLABEL_PLACEHOLDER;
      }
    }
    return Ok(command);
  }
}
