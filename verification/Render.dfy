/** The pure rendering helpers: HTML escaping and the poll sentinel. */
module Render {
  /** `s.replace(c, rep)` for a single character c. */
  function Replace(s: string, c: char, rep: string): string {
    if s == [] then [] else (if s[0] == c then rep else [s[0]]) + Replace(s[1..], c, rep)
  }

  /** The three passes, in the order the code applies them. */
  function Escape(text: string): string {
    Replace(Replace(Replace(text, '&', "&amp;"), '<', "&lt;"), '>', "&gt;")
  }

  /** The entity, or the character itself, that each character becomes. */
  function Entity(c: char): string {
    if c == '&' then "&amp;" else if c == '<' then "&lt;" else if c == '>' then "&gt;" else [c]
  }

  function MapEntities(s: string): string {
    if s == [] then [] else Entity(s[0]) + MapEntities(s[1..])
  }

  /** What a browser reads back from escaped text. */
  function Unescape(s: string): string {
    if s == [] then []
    else if "&amp;" <= s then ['&'] + Unescape(s[5..])
    else if "&lt;" <= s then ['<'] + Unescape(s[4..])
    else if "&gt;" <= s then ['>'] + Unescape(s[4..])
    else [s[0]] + Unescape(s[1..])
  }

  lemma {:induction false} ReplaceConcat(s: string, t: string, c: char, rep: string)
    ensures Replace(s + t, c, rep) == Replace(s, c, rep) + Replace(t, c, rep)
  {
    if s == [] {
      assert s + t == t;
    } else {
      assert (s + t)[1..] == s[1..] + t;
      ReplaceConcat(s[1..], t, c, rep);
    }
  }

  /** No pass rewrites what an earlier pass wrote: the passes act character by character. */
  lemma {:induction false} EscapeIsCharacterMap(s: string)
    ensures Escape(s) == MapEntities(s)
  {
    if s != [] {
      EscapeIsCharacterMap(s[1..]);
      EscapeFirst(s[0]);
      var a := Replace(s, '&', "&amp;");
      var first, rest := Replace([s[0]], '&', "&amp;"), Replace(s[1..], '&', "&amp;");
      assert s == [s[0]] + s[1..];
      ReplaceConcat([s[0]], s[1..], '&', "&amp;");
      ReplaceConcat(first, rest, '<', "&lt;");
      ReplaceConcat(Replace(first, '<', "&lt;"), Replace(rest, '<', "&lt;"), '>', "&gt;");
    }
  }

  lemma ReplaceOne(c: char, d: char, rep: string)
    ensures Replace([c], d, rep) == if c == d then rep else [c]
  {
    assert Replace([], d, rep) == [];
  }

  lemma {:induction false} ReplaceAbsent(s: string, c: char, rep: string)
    requires c !in s
    ensures Replace(s, c, rep) == s
  {
    if s != [] { ReplaceAbsent(s[1..], c, rep); }
  }

  lemma EscapeFirst(c: char)
    ensures Escape([c]) == if c == '&' then "&amp;" else if c == '<' then "&lt;" else if c == '>' then "&gt;" else [c]
    ensures Escape([c]) == Entity(c)
  {
    ReplaceOne(c, '&', "&amp;");
    if c == '&' {
      ReplaceAbsent("&amp;", '<', "&lt;");
      ReplaceAbsent("&amp;", '>', "&gt;");
    } else {
      ReplaceOne(c, '<', "&lt;");
      if c == '<' { ReplaceAbsent("&lt;", '>', "&gt;"); } else { ReplaceOne(c, '>', "&gt;"); }
    }
  }

  /** Escaped text holds no raw angle bracket, and reads back to the original. */
  lemma {:induction false} EscapeIsSafe(s: string)
    ensures '<' !in Escape(s) && '>' !in Escape(s)
    ensures Unescape(Escape(s)) == s
  {
    EscapeIsCharacterMap(s);
    if s != [] {
      EscapeIsSafe(s[1..]);
      EscapeIsCharacterMap(s[1..]);
      var e, rest := Entity(s[0]), MapEntities(s[1..]);
      assert (e + rest)[|e|..] == rest;
      if s[0] == '&' {
        assert "&amp;" <= e + rest;
      } else if s[0] == '<' {
        assert "&lt;" <= e + rest && (e + rest)[1] == 'l';
      } else if s[0] == '>' {
        assert "&gt;" <= e + rest && (e + rest)[1] == 'g';
      } else {
        assert (e + rest)[0] == s[0];
      }
    }
  }

  lemma EscapeIsInjective(s: string, t: string)
    requires Escape(s) == Escape(t)
    ensures s == t
  {
    EscapeIsSafe(s);
    EscapeIsSafe(t);
  }

  /** The three messages the sentinel can carry. */
  datatype Sentinel =
    | NoHosts
    | AllResponded(total: nat)
    | Partial(received: nat, total: nat, missing: nat)

  function RenderSentinel(received: nat, total: nat): Sentinel {
    if total == 0 then NoHosts
    else if received >= total then AllResponded(total)
    else Partial(received, total, total - received)
  }

  /** How many hosts the message says are still silent. */
  function Missing(s: Sentinel): nat {
    match s
    case Partial(_, _, missing) => missing
    case _ => 0
  }

  /**
   * The shortfall a message names is the least number of further replies that completes the
   * poll, and a partial message tells exactly which counts it was rendered from. A poll of no
   * hosts says so whatever arrives, and no other poll does.
   */
  lemma SentinelThreshold(received: nat, total: nat, more: nat)
    ensures RenderSentinel(received, total).NoHosts? <==> total == 0
    ensures total > 0 ==>
      (RenderSentinel(received + more, total) == AllResponded(total)
       <==> more >= Missing(RenderSentinel(received, total)))
    ensures forall n, m :: RenderSentinel(n, m) == RenderSentinel(received, total) && received < total ==>
              n == received && m == total
  {
  }
}
