/**
 * Keyboard and free-text input: `String.prototype.trim` as the custom label
 * field uses it, and the key-to-command table of `handleKeyboard`.
 */
module Keyboard {
  import opened Projection

  /** Tab, line feed, VT, FF, CR, space, NBSP, the Unicode Zs spaces, LS, PS and the BOM. */
  const JsSpaces: set<char> := {'\t', '\n', '\U{B}', '\U{C}', '\r', ' ', '\U{A0}', '\U{1680}', '\U{2000}', '\U{2001}', '\U{2002}', '\U{2003}', '\U{2004}', '\U{2005}', '\U{2006}', '\U{2007}', '\U{2008}', '\U{2009}', '\U{200A}', '\U{2028}', '\U{2029}', '\U{202F}', '\U{205F}', '\U{3000}', '\U{FEFF}'}

  /** Where the leading run of ws-characters starting at lo ends: the first index at or after lo not in ws. */
  function LeadingEnd(s: string, ws: set<char>, lo: nat): (k: nat)
    requires lo <= |s|
    ensures lo <= k <= |s|
    ensures forall i :: lo <= i < k ==> s[i] in ws
    ensures k < |s| ==> s[k] !in ws
    decreases |s| - lo
  {
    if lo < |s| && s[lo] in ws then LeadingEnd(s, ws, lo + 1) else lo
  }

  /** Where the trailing run of ws-characters ending at hi starts, going no lower than lo. */
  function TrailingStart(s: string, ws: set<char>, lo: nat, hi: nat): (k: nat)
    requires lo <= hi <= |s|
    ensures lo <= k <= hi
    ensures forall i :: k <= i < hi ==> s[i] in ws
    ensures lo < k ==> s[k - 1] !in ws
    decreases hi
  {
    if lo < hi && s[hi - 1] in ws then TrailingStart(s, ws, lo, hi - 1) else hi
  }

  /** Trimming by class ws: what is kept neither starts nor ends with a character of ws. */
  function TrimBy(s: string, ws: set<char>): (r: string)
    ensures |r| <= |s|
    ensures r != [] ==> r[0] !in ws && r[|r| - 1] !in ws
  {
    var lo := LeadingEnd(s, ws, 0);
    s[lo..TrailingStart(s, ws, lo, |s|)]
  }

  /** `s.trim()`: s without leading and trailing ECMAScript WhiteSpace and LineTerminator characters. */
  function Trim(s: string): string
  {
    TrimBy(s, JsSpaces)
  }

  /**
   * What trimming keeps is one contiguous slice of s, and everything it cuts on
   * either side of that slice is in ws.
   */
  lemma TrimIsSlice(s: string, ws: set<char>)
    ensures var k := LeadingEnd(s, ws, 0);
            var r := TrimBy(s, ws);
              && k + |r| <= |s| && r == s[k..k + |r|]
              && (forall i :: 0 <= i < k ==> s[i] in ws)
              && (forall i :: k + |r| <= i < |s| ==> s[i] in ws)
  {
    var k := LeadingEnd(s, ws, 0);
    var hi := TrailingStart(s, ws, k, |s|);
    assert TrimBy(s, ws) == s[k..hi];
  }

  /** Trimming keeps nothing exactly when every character of s is in ws. */
  lemma TrimByBlank(s: string, ws: set<char>)
    ensures TrimBy(s, ws) == [] <==> forall i :: 0 <= i < |s| ==> s[i] in ws
  {
    var k := LeadingEnd(s, ws, 0);
    var hi := TrailingStart(s, ws, k, |s|);
    assert TrimBy(s, ws) == s[k..hi];
  }

  /** Trimming twice is trimming once. */
  lemma TrimIdempotent(s: string, ws: set<char>)
    ensures TrimBy(TrimBy(s, ws), ws) == TrimBy(s, ws)
  {
    var r := TrimBy(s, ws);
    if r != [] {
      assert LeadingEnd(r, ws, 0) == 0;
      assert TrailingStart(r, ws, 0, |r|) == |r|;
      assert r[0..|r|] == r;
    }
  }

  /** Where keyboard focus is when a key goes down. */
  datatype Focus =
    | Page              // not an INPUT or TEXTAREA element (the page, a button, the select)
    | CustomLabelField  // the free-text label input
    | OtherInput        // any other INPUT or TEXTAREA element (text box, checkbox, file picker)

  /** What a key press asks the session to do. */
  datatype Command = Annotate(value: string) | Clear | Next | Prev | Ignore

  /**
   * `handleKeyboard`'s dispatch. Keys are ignored while there are no label slots or while
   * any other INPUT or TEXTAREA element has focus; in the custom label field every binding stays
   * live. "1" and "2" apply the canonical labels, "3" the trimmed free text when it
   * is not blank, Backspace clears, ArrowRight and Enter step forward, ArrowLeft back.
   */
  function KeyCommand(key: string, focus: Focus, hasSlots: bool, customValue: string): (c: Command)
    ensures c != Ignore ==> hasSlots && focus != OtherInput
    ensures hasSlots && focus != OtherInput ==>
              && (key == "1" ==> c == Annotate(Natural))
              && (key == "2" ==> c == Annotate(Conventional))
              && (key == "3" ==> c == if Trim(customValue) != "" then Annotate(Trim(customValue)) else Ignore)
              && (c == Clear <==> key == "Backspace")
              && (c == Next <==> key == "ArrowRight" || key == "Enter")
              && (c == Prev <==> key == "ArrowLeft")
              && (c.Annotate? <==> key == "1" || key == "2" || (key == "3" && Trim(customValue) != ""))
    ensures c.Annotate? ==> c.value != ""
  {
    if !hasSlots || focus == OtherInput then Ignore
    else if key == "1" then Annotate(Natural)
    else if key == "2" then Annotate(Conventional)
    else if key == "3" then (if Trim(customValue) != "" then Annotate(Trim(customValue)) else Ignore)
    else if key == "Backspace" then Clear
    else if key == "ArrowRight" || key == "Enter" then Next
    else if key == "ArrowLeft" then Prev
    else Ignore
  }
}
