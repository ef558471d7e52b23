/** The display-name field of frontend-solid/src/hooks/useCallRoom.ts:
    `saveUserName` trims the typed name and stores it in `localStorage`, or
    alerts when nothing is left; on mount a stored name is restored. */
module UserName {
  import opened Collections

  /** The characters `String.prototype.trim` removes: the ECMAScript
      WhiteSpace code points (tab, vertical tab, form feed, space, no-break
      space, byte order mark and the Space_Separator category) and the
      LineTerminator code points. */
  predicate IsTrimmed(c: char) {
    || c == '\t' || c == '\U{000B}' || c == '\U{000C}' || c == ' ' || c == '\U{00A0}' || c == '\U{FEFF}'
    || c == '\U{1680}' || ('\U{2000}' <= c <= '\U{200A}') || c == '\U{202F}' || c == '\U{205F}' || c == '\U{3000}'
    || c == '\n' || c == '\r' || c == '\U{2028}' || c == '\U{2029}'
  }

  /* The trimming functions and their lemmas take the set of removed
     characters as a parameter `drop`; `Trim` instantiates it with
     `IsTrimmed`. */

  /** Drops the leading characters in `drop`. */
  function TrimStart(s: string, drop: char -> bool): (r: string)
    ensures |r| <= |s| && r == s[|s| - |r|..]
    ensures r == [] || !drop(r[0])
    ensures forall i :: 0 <= i < |s| - |r| ==> drop(s[i])
  {
    if s == [] || !drop(s[0]) then s
    else
      var r := TrimStart(s[1..], drop);
      assert forall i :: 1 <= i < |s| ==> s[1..][i - 1] == s[i];
      r
  }

  /** Drops the trailing characters in `drop`. */
  function TrimEnd(s: string, drop: char -> bool): (r: string)
    ensures |r| <= |s| && r == s[..|r|]
    ensures r == [] || !drop(r[|r| - 1])
    ensures forall i :: |r| <= i < |s| ==> drop(s[i])
  {
    if s == [] || !drop(s[|s| - 1]) then s
    else TrimEnd(s[..|s| - 1], drop)
  }

  function TrimBy(s: string, drop: char -> bool): string {
    TrimEnd(TrimStart(s, drop), drop)
  }

  /** `String.prototype.trim` */
  function Trim(s: string): string {
    TrimBy(s, IsTrimmed)
  }

  /** Every character of `s` outside `s[i..j]` is in `drop`. */
  ghost predicate DroppedOutside(s: string, i: nat, j: nat, drop: char -> bool) {
    forall k :: 0 <= k < |s| && (k < i || j <= k) ==> drop(s[k])
  }

  /** `TrimEnd` of the suffix `s[i..]` cuts `s` back to a slice `s[i..j]`,
      and every character it drops is in `drop`. */
  lemma TrimEndOfSuffix(s: string, i: nat, drop: char -> bool)
    requires i <= |s|
    ensures i + |TrimEnd(s[i..], drop)| <= |s|
    ensures TrimEnd(s[i..], drop) == s[i..i + |TrimEnd(s[i..], drop)|]
    ensures forall k :: i + |TrimEnd(s[i..], drop)| <= k < |s| ==> drop(s[k])
  {
    var st := s[i..];
    var t := TrimEnd(st, drop);
    forall k | i + |t| <= k < |s| ensures drop(s[k]) {
      assert s[k] == st[k - i];
    }
  }

  /** The trimmed string is the slice of `s` left after dropping characters
      in `drop` at both ends. */
  lemma TrimIsCore(s: string, drop: char -> bool)
    ensures exists i: nat, j: nat :: i <= j <= |s| && TrimBy(s, drop) == s[i..j] && DroppedOutside(s, i, j, drop)
  {
    var st := TrimStart(s, drop);
    var i: nat := |s| - |st|;
    assert st == s[i..];
    TrimEndOfSuffix(s, i, drop);
    var j: nat := i + |TrimEnd(st, drop)|;
    assert TrimBy(s, drop) == s[i..j] && DroppedOutside(s, i, j, drop);
  }

  /** The trimmed string neither begins nor ends with a character in `drop`. */
  lemma TrimKeepsEnds(s: string, drop: char -> bool)
    ensures var t := TrimBy(s, drop); t != [] ==> !drop(t[0]) && !drop(t[|t| - 1])
  {
    var st := TrimStart(s, drop);
    var t := TrimEnd(st, drop);
    if t != [] {
      assert t[0] == st[0];
    }
  }

  /** Trimming an already trimmed string changes nothing. */
  lemma TrimIdempotent(s: string, drop: char -> bool)
    ensures TrimBy(TrimBy(s, drop), drop) == TrimBy(s, drop)
  {
    var t := TrimBy(s, drop);
    TrimKeepsEnds(s, drop);
    assert TrimStart(t, drop) == t;
  }

  /** A string trims to nothing exactly when all its characters are in
      `drop`; for `Trim`, when the name is whitespace only. */
  lemma TrimEmptyIff(s: string, drop: char -> bool)
    ensures TrimBy(s, drop) == [] <==> forall i :: 0 <= i < |s| ==> drop(s[i])
  {
    TrimIsCore(s, drop);
  }

  class NameField {
    /** The `userName` signal. */
    var userName: string
    /** `localStorage["userName"]` */
    var stored: Option<string>
    /** Alerts shown, in order. */
    var alerts: seq<string>

    constructor (stored: Option<string>)
      ensures userName == "" && this.stored == stored && alerts == []
    {
      userName, this.stored, alerts := "", stored, [];
    }

    /** `onMount`: restore a stored name. */
    method OnMount()
      modifies this`userName
      ensures stored.Some? ==> userName == stored.value
      ensures stored.None? ==> userName == old(userName)
    {
      if stored.Some? {
        userName := stored.value;
      }
    }

    /** `saveUserName` */
    method SaveUserName()
      modifies this`userName, this`stored, this`alerts
      ensures Trim(old(userName)) != [] ==> && userName == Trim(old(userName))
                                            && stored == Some(Trim(old(userName)))
                                            && alerts == old(alerts)
      ensures Trim(old(userName)) == [] ==> && userName == old(userName) && stored == old(stored)
                                            && alerts == old(alerts) + [EmptyNameAlert]
    {
      var name := Trim(userName);
      if name != [] {
        stored := Some(name);
        userName := name;
      } else {
        alerts := alerts + [EmptyNameAlert];
      }
    }
  }

  const EmptyNameAlert := "The user name is empty. Please, enter your display name."
}
