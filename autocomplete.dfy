/** The suggestion list shown under the search box. */
module Autocomplete {
  import opened Seqs
  import opened Directory
  import opened FilterEngine

  const MaxSuggestions := 3

  function MatchesText(text: string): Doctor -> bool
  {
    d => NameMatches(text, d)
  }

  function Matching(doctors: seq<Doctor>, text: string): seq<Doctor>
  {
    Keep(doctors, MatchesText(text))
  }

  /**
   * The first three records, in fetch order, whose name contains the typed
   * text; nothing at all for an empty text. The other filters play no part.
   */
  function Suggestions(doctors: seq<Doctor>, text: string): (r: seq<Doctor>)
    ensures text == "" ==> r == []
    ensures |r| <= MaxSuggestions
    ensures text != "" ==>
              var m := Matching(doctors, text);
              |r| == if |m| < MaxSuggestions then |m| else MaxSuggestions
    ensures r <= Matching(doctors, text)
    ensures forall d :: d in r ==> d in doctors && NameMatches(text, d)
  {
    if text == "" then []
    else
      var m := Matching(doctors, text);
      var r := if |m| <= MaxSuggestions then m else m[..MaxSuggestions];
      KeepAllMembers(doctors, MatchesText(text));
      assert forall d :: d in r ==> d in m;
      r
  }

  /**
   * The suggestions are the head of the list the page would display for the
   * same text with every other filter and the sort cleared.
   */
  lemma SuggestionsLeadDisplay(doctors: seq<Doctor>, text: string)
    ensures Suggestions(doctors, text) <= Displayed(doctors, Filters(text, "", [], ""))
  {
    var f := Filters(text, "", [], "");
    KeepSame(doctors, MatchesText(text), AdmittedBy(f));
  }
}
