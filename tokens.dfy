/**
 * The regular expressions of Flott::Parser (ESCOPEN, INCOPEN, PRIOPEN, RAWOPEN, COMOPEN, OPEN, CLOSE,
 * ESCCLOSE, TEXT, ESC) as matchers on the unscanned rest of the source, and the token each mode's `case`
 * picks, in the order the `when` branches try them.
 */
module Tokens {
  import opened Wrappers
  import opened Strings

  /** The characters TEXT (/[^\\\]\[]+/) stops at. */
  predicate IsSpecial(c: char) {
    c == '[' || c == ']' || c == '\\'
  }

  /** The length of the longest prefix TEXT matches (0 when it does not match). */
  function PlainRun(s: string): (n: nat)
    ensures n <= |s|
    ensures forall k :: 0 <= k < n ==> !IsSpecial(s[k])
    ensures n < |s| ==> IsSpecial(s[n])
  {
    if s == [] || IsSpecial(s[0]) then 0 else 1 + PlainRun(s[1..])
  }

  /**
   * The group INCOPEN captures from the text between "[<" and the first ']': `\s*` takes the leading
   * whitespace greedily but gives back one character when nothing else is left for `[^\]]+`.
   */
  function IncludeName(body: string): (name: string)
    requires body != []
    ensures name != [] && EndsWith(body, name)
    ensures forall k :: 0 <= k < |body| - |name| ==> IsSpace(body[k])
    ensures |name| == 1 || !IsSpace(name[0])
  {
    var w := SpaceRun(body);
    if w < |body| then body[w..] else [body[|body| - 1]]
  }

  /** INCOPEN (/\[<\s*([^\]]+)\s*\]/): the captured name and the number of characters matched. */
  function IncludeMatch(s: string): (r: Option<(string, nat)>)
    ensures r.Some? ==> StartsWith(s, "[<") && 3 <= r.value.1 <= |s| && s[r.value.1 - 1] == ']'
    ensures r.Some? ==> forall k :: 2 <= k < r.value.1 - 1 ==> s[k] != ']'
    ensures r.None? && StartsWith(s, "[<") ==> |s| == 2 || s[2] == ']' || forall k :: 2 <= k < |s| ==> s[k] != ']'
  {
    if !StartsWith(s, "[<") then None
    else match IndexFrom(s, ']', 2)
      case None => None
      case Some(k) => if k == 2 then None else Some((IncludeName(s[2..k]), k + 1))
  }

  /**
   * INCOPEN on a rest that starts with "[<" and whose first ']' after it is at `k`, with a non-empty body in
   * between: the tag ends just after that ']' and the captured name is IncludeName of the body.
   */
  lemma IncludeMatchCapture(s: string, k: nat)
    requires StartsWith(s, "[<") && 2 < k < |s| && s[k] == ']'
    requires forall j :: 2 <= j < k ==> s[j] != ']'
    ensures IncludeMatch(s) == Some((IncludeName(s[2..k]), k + 1))
  {
    assert IndexFrom(s, ']', 2) == Some(k);
  }

  /** PRIOPEN, RAWOPEN, COMOPEN ("[=", "[!" or "[#" followed by `\s` repeated): '[' and `mark`, then any whitespace. */
  function OpenerMatch(s: string, mark: char): (r: Option<nat>)
    ensures r.Some? <==> StartsWith(s, ['[', mark])
    ensures r.Some? ==> 2 <= r.value <= |s| && forall k :: 2 <= k < r.value ==> IsSpace(s[k])
    ensures r.Some? && r.value < |s| ==> !IsSpace(s[r.value])
  {
    if StartsWith(s, ['[', mark]) then Some(2 + SpaceRun(s[2..])) else None
  }

  /** scanner.peek(40): at most forty characters of lookahead, for the error message. */
  function Peek(s: string): (r: string)
    ensures StartsWith(s, r) && |r| <= 40
    ensures |r| < 40 ==> r == s
  {
    if |s| <= 40 then s else s[..40]
  }

  /** What TextMode#scan matched. */
  datatype TextToken =
    | EscapedOpen                          // ESCOPEN: \[
    | IncludeTag(name: string, len: nat)   // INCOPEN: [<name]
    | PrintOpen(len: nat)                  // PRIOPEN: [=
    | RawPrintOpen(len: nat)               // RAWOPEN: [!
    | CommentOpen(len: nat)                // COMOPEN: [#
    | StatementOpen                        // OPEN: [
    | StrayClose                           // CLOSE: ]
    | TextRun(run: string)                 // TEXT
    | Backslash                            // ESC: a lone \
    | NoTextMatch                          // the `else` branch
  {
    /** The number of characters the token consumes. */
    function Length(): nat {
      match this
      case EscapedOpen => 2
      case IncludeTag(_, n) => n
      case PrintOpen(n) => n
      case RawPrintOpen(n) => n
      case CommentOpen(n) => n
      case StatementOpen => 1
      case StrayClose => 1
      case TextRun(run) => |run|
      case Backslash => 1
      case NoTextMatch => 0
    }
  }

  /**
   * TextMode#scan's choice for the rest `s` of the source: ESCOPEN, then INCOPEN, PRIOPEN, RAWOPEN, COMOPEN,
   * OPEN, CLOSE, TEXT and ESC. Some branch always matches, and it consumes at least one character.
   */
  function TextTokenAt(s: string): (t: TextToken)
    requires s != []
    ensures !t.NoTextMatch? && 0 < t.Length() <= |s|
    ensures t.TextRun? ==> t.run == s[..|t.run|]
  {
    var inc := IncludeMatch(s);
    if StartsWith(s, "\\[") then EscapedOpen
    else if inc.Some? then IncludeTag(inc.value.0, inc.value.1)
    else if OpenerMatch(s, '=').Some? then PrintOpen(OpenerMatch(s, '=').value)
    else if OpenerMatch(s, '!').Some? then RawPrintOpen(OpenerMatch(s, '!').value)
    else if OpenerMatch(s, '#').Some? then CommentOpen(OpenerMatch(s, '#').value)
    else if s[0] == '[' then StatementOpen
    else if s[0] == ']' then StrayClose
    else if PlainRun(s) > 0 then TextRun(s[..PlainRun(s)])
    else if s[0] == '\\' then Backslash
    else NoTextMatch
  }

  /** What RubyMode#scan matched. */
  datatype RubyToken =
    | RegionClose          // CLOSE with no open bracket: ends the code region
    | EscapedClose         // ESCCLOSE: \]
    | NestedClose          // CLOSE closing a bracket opened inside the code
    | EscapedOpenCode      // ESCOPEN: \[
    | NestedOpen           // OPEN: a bracket opened inside the code
    | CodeRun(run: string) // TEXT
    | NoCodeMatch          // the `else` branch
  {
    function Length(): nat {
      match this
      case RegionClose => 1
      case EscapedClose => 2
      case NestedClose => 1
      case EscapedOpenCode => 2
      case NestedOpen => 1
      case CodeRun(run) => |run|
      case NoCodeMatch => 0
    }
  }

  /**
   * RubyMode#scan's choice for the rest `s` of the source when `depth` brackets are open. It fails exactly on
   * a backslash that is not followed by a bracket; otherwise it consumes at least one character.
   */
  function RubyTokenAt(s: string, depth: int): (t: RubyToken)
    requires s != []
    ensures t.NoCodeMatch? <==> s[0] == '\\' && (|s| == 1 || (s[1] != '[' && s[1] != ']'))
    ensures !t.NoCodeMatch? ==> 0 < t.Length() <= |s|
    ensures t.CodeRun? ==> t.run == s[..|t.run|]
    ensures t.RegionClose? <==> s[0] == ']' && depth == 0
    ensures t.NestedClose? <==> s[0] == ']' && depth != 0
    ensures t.NestedOpen? <==> s[0] == '['
  {
    if s[0] == ']' && depth == 0 then RegionClose
    else if StartsWith(s, "\\]") then EscapedClose
    else if s[0] == ']' && depth != 0 then NestedClose
    else if StartsWith(s, "\\[") then EscapedOpenCode
    else if s[0] == '[' then NestedOpen
    else if PlainRun(s) > 0 then CodeRun(s[..PlainRun(s)])
    else NoCodeMatch
  }

  /**
   * The precedence among TextMode's openers: `\[` first, then a complete `[<name]`, then `[=`, `[!` and `[#`,
   * and a bare `[` (including a `[<` with no name or no closing bracket) last.
   */
  lemma OpenerPrecedence(s: string)
    requires s != [] && (s[0] == '[' || StartsWith(s, "\\["))
    ensures StartsWith(s, "\\[") ==> TextTokenAt(s) == EscapedOpen
    ensures StartsWith(s, "[<") ==>
              TextTokenAt(s) == (if IncludeMatch(s).Some? then IncludeTag(IncludeMatch(s).value.0, IncludeMatch(s).value.1)
                                 else StatementOpen)
    ensures StartsWith(s, "[=") ==> TextTokenAt(s).PrintOpen?
    ensures StartsWith(s, "[!") ==> TextTokenAt(s).RawPrintOpen?
    ensures StartsWith(s, "[#") ==> TextTokenAt(s).CommentOpen?
    ensures s[0] == '[' && (|s| == 1 || (s[1] != '<' && s[1] != '=' && s[1] != '!' && s[1] != '#')) ==>
              TextTokenAt(s) == StatementOpen
  {
    if StartsWith(s, "[=") || StartsWith(s, "[!") || StartsWith(s, "[#") {
      assert !StartsWith(s, "[<") by { assert s[1] != '<'; }
    }
  }
}
