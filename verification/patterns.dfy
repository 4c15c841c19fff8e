/**
  Regular expressions as data and the matching engine as an oracle. A `Regex`
  keeps the source text and the `i` flag of a JavaScript regex literal, so the
  scrapers' pattern lists are written down exactly; what a regex matches is up
  to the `Engine`, which the model never interprets.
*/
module Patterns {
  import opened Wrappers

  datatype Regex = Regex(source: string, ignoreCase: bool)

  /**
    `html.match(regex)` reduced to its first capture group: `None` when the
    regex does not match, otherwise the text of group 1. Every regex of the
    scrapers has a mandatory group 1, so a match always carries one.
  */
  type Engine = (Regex, string) -> Option<string>

  /** Regex `i` of `regexes` is the first that matches `html`. */
  ghost predicate IsFirstMatch(html: string, regexes: seq<Regex>, engine: Engine, i: int) {
    && 0 <= i < |regexes|
    && engine(regexes[i], html).Some?
    && forall j :: 0 <= j < i ==> engine(regexes[j], html).None?
  }

  /** `html.match(a) || html.match(b) || ...`: the capture of the first regex that matches. */
  function FirstMatch(html: string, regexes: seq<Regex>, engine: Engine): (r: Option<string>)
    ensures r.None? <==> forall i :: 0 <= i < |regexes| ==> engine(regexes[i], html).None?
  {
    if |regexes| == 0 then None
    else if engine(regexes[0], html).Some? then engine(regexes[0], html)
    else FirstMatch(html, regexes[1..], engine)
  }

  /** The first matching regex decides; the ones after it are never consulted. */
  lemma {:induction false} FirstMatchIsFirst(html: string, regexes: seq<Regex>, engine: Engine, i: int)
    requires IsFirstMatch(html, regexes, engine, i)
    ensures FirstMatch(html, regexes, engine) == engine(regexes[i], html)
    decreases i
  {
    if i > 0 {
      assert engine(regexes[0], html).None?;
      assert IsFirstMatch(html, regexes[1..], engine, i - 1) by {
        forall j | 0 <= j < i - 1
          ensures engine(regexes[1..][j], html).None?
        {
          assert regexes[1..][j] == regexes[j + 1];
        }
      }
      FirstMatchIsFirst(html, regexes[1..], engine, i - 1);
    }
  }
}
