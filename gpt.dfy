/**
 * `Backend/gpt.py`: the script and the search terms the language model is asked for. The model's
 * answers are inputs (one per request), and `json.loads` is the parameter `parse`.
 */
module Gpt {
  import opened Common

  /**
   * `generate_script`: a non-empty answer becomes the script with one space appended; an empty
   * answer gives None.
   */
  function GenerateScript(response: string): (r: Option<string>)
    ensures r.Some? <==> response != []
    ensures r.Some? ==> |r.value| == |response| + 1 && r.value[..|response|] == response && r.value[|response|] == ' '
  {
    if response != [] then Some(response + " ") else None
  }

  /**
   * Whether `re.search(r"\[(.*?)\]", s)` can match from `[` at `p` to `]` at `q`: `.` matches
   * anything but a newline, and the lazy `*?` stops at the first `]`, so between them there is
   * neither a newline nor another `]`.
   */
  predicate IsMatchAt(s: string, p: int, q: int)
  {
    0 <= p < q < |s| && s[p] == '[' && s[q] == ']'
    && forall k :: p < k < q ==> s[k] != ']' && s[k] != '\n'
  }

  /** The end of a lazy match whose body starts at `k`: the first `]`, unless a newline comes first. */
  function CloseFrom(s: string, k: nat): (r: Option<nat>)
    ensures r.Some? ==> k <= r.value < |s| && s[r.value] == ']'
    ensures r.Some? ==> forall j :: k <= j < r.value ==> s[j] != ']' && s[j] != '\n'
    ensures r.None? ==> forall q :: k <= q < |s| && s[q] == ']' ==> exists j :: k <= j < q && s[j] == '\n'
    decreases |s| - k
  {
    if k >= |s| then None
    else if s[k] == ']' then Some(k)
    else if s[k] == '\n' then None
    else CloseFrom(s, k + 1)
  }

  /**
   * `re.search` from position `from`: the leftmost `[` from which the pattern matches, with the
   * end of that match.
   */
  function SearchFrom(s: string, from: nat): (r: Option<(nat, nat)>)
    ensures r.Some? ==> from <= r.value.0 && IsMatchAt(s, r.value.0, r.value.1)
    ensures r.Some? ==> forall p, q :: from <= p < r.value.0 ==> !IsMatchAt(s, p, q)
    ensures r.None? ==> forall p, q :: from <= p ==> !IsMatchAt(s, p, q)
    decreases |s| - from
  {
    if from >= |s| then None
    else if s[from] == '[' && CloseFrom(s, from + 1).Some? then Some((from, CloseFrom(s, from + 1).value))
    else
      var r := SearchFrom(s, from + 1);
      assert forall q :: !IsMatchAt(s, from, q);
      r
  }

  /** `re.search(r"\[(.*?)\]", s)`: the start and end of the leftmost match, if any. */
  function Search(s: string): Option<(nat, nat)>
  {
    SearchFrom(s, 0)
  }

  /**
   * The search finds a match exactly when there is one, and then the leftmost one; its
   * `group(0)` is the bracketed text `s[p..q+1]`.
   */
  lemma SearchIsLeftmostMatch(s: string)
    ensures Search(s).None? <==> forall p, q :: !IsMatchAt(s, p, q)
    ensures Search(s).Some? ==> IsMatchAt(s, Search(s).value.0, Search(s).value.1)
    ensures Search(s).Some? ==> forall p, q :: p < Search(s).value.0 ==> !IsMatchAt(s, p, q)
  {
    var r := Search(s);
    if r.Some? {
      assert IsMatchAt(s, r.value.0, r.value.1);
    }
  }

  /**
   * Lines 105-117 of `get_search_terms`: the answer itself when it parses; otherwise the first
   * bracketed span `re.search` finds, when that parses; otherwise nothing (a missing match makes
   * `.group` raise, which the bare `except` catches like a parse error).
   */
  function Cleaned(response: string, parse: string -> Option<Json>): Option<Json>
  {
    if parse(response).Some? then parse(response)
    else match Search(response)
      case None => None
      case Some(m) => parse(response[m.0..m.1 + 1])
  }

  /** What `Cleaned` accepts: the whole answer, or else its leftmost bracketed span. */
  lemma CleanedSources(response: string, parse: string -> Option<Json>)
    ensures parse(response).Some? ==> Cleaned(response, parse) == parse(response)
    ensures Cleaned(response, parse).Some? && parse(response).None? ==>
      exists p, q :: IsMatchAt(response, p, q) && (forall p', q' :: p' < p ==> !IsMatchAt(response, p', q'))
        && Cleaned(response, parse) == parse(response[p..q + 1])
    ensures (forall p, q :: !IsMatchAt(response, p, q)) ==> Cleaned(response, parse) == parse(response)
  {
    SearchIsLeftmostMatch(response);
    if Cleaned(response, parse).Some? && parse(response).None? {
      var m := Search(response).value;
      assert IsMatchAt(response, m.0, m.1);
    }
  }

  /** No answer among the first `n` could be cleaned. */
  predicate NoneCleaned(responses: seq<string>, parse: string -> Option<Json>, n: nat)
    requires n <= |responses|
  {
    forall j :: 0 <= j < n ==> Cleaned(responses[j], parse).None?
  }

  /**
   * `get_search_terms`: each call takes the next answer; an answer that cannot be cleaned makes it
   * call itself again. The value is returned as `json.loads` gave it, but only after `', '.join`
   * has iterated over it for the console (line 123), which raises `TypeError` unless it is a list
   * of strings, a string or an object. `amount` only appears in the prompt and the console line.
   * Running out of answers stands for retrying forever, which in Python ends in `RecursionError`.
   */
  function GetSearchTerms(amount: int, responses: seq<string>, parse: string -> Option<Json>): (r: Result<Json, PyError>)
    ensures r == Err(RecursionError) <==> NoneCleaned(responses, parse, |responses|)
    ensures r.Ok? ==> StringItems(r.value).Some?
    decreases |responses|
  {
    if responses == [] then Err(RecursionError)
    else
      match Cleaned(responses[0], parse)
      case None =>
        var r := GetSearchTerms(amount, responses[1..], parse);
        assert NoneCleaned(responses, parse, |responses|) <==> NoneCleaned(responses[1..], parse, |responses| - 1) by {
          forall j | 0 < j < |responses|
            ensures responses[j] == responses[1..][j - 1]
          {
          }
        }
        r
      case Some(terms) =>
        if StringItems(terms).Some? then Ok(terms) else Err(TypeError)
  }

  /**
   * The terms come from the first answer that can be cleaned, and from no other: when answer `i`
   * is the first, the call returns its value, or `TypeError` when that value is not iterable as
   * strings.
   */
  lemma {:induction false} FirstCleanedAnswer(amount: int, responses: seq<string>, parse: string -> Option<Json>, i: nat)
    requires i < |responses| && NoneCleaned(responses, parse, i)
    requires Cleaned(responses[i], parse).Some?
    ensures var v := Cleaned(responses[i], parse).value;
      GetSearchTerms(amount, responses, parse) == if StringItems(v).Some? then Ok(v) else Err(TypeError)
    decreases i
  {
    if i > 0 {
      assert Cleaned(responses[0], parse).None?;
      assert NoneCleaned(responses[1..], parse, i - 1) by {
        forall j | 0 <= j < i - 1
          ensures responses[1..][j] == responses[j + 1]
        {
        }
      }
      FirstCleanedAnswer(amount, responses[1..], parse, i - 1);
      assert responses[1..][i - 1] == responses[i];
    }
  }

  /** Answers after the first one that can be cleaned are never looked at. */
  lemma LaterAnswersIgnored(amount: int, responses: seq<string>, more: seq<string>, parse: string -> Option<Json>, i: nat)
    requires i < |responses| && NoneCleaned(responses, parse, i)
    requires Cleaned(responses[i], parse).Some?
    ensures GetSearchTerms(amount, responses + more, parse) == GetSearchTerms(amount, responses, parse)
  {
    FirstCleanedAnswer(amount, responses, parse, i);
    assert NoneCleaned(responses + more, parse, i) by {
      forall j | 0 <= j < i
        ensures (responses + more)[j] == responses[j]
      {
      }
    }
    assert (responses + more)[i] == responses[i];
    FirstCleanedAnswer(amount, responses + more, parse, i);
  }

  /** A `json.loads` that accepts only the empty list. */
  function ParseEmptyList(text: string): Option<Json>
  {
    if text == "[]" then Some(JArray([])) else None
  }

  /** The number of terms is never checked against `amount`: an empty list comes back whatever was asked for. */
  lemma AmountUnchecked(amount: int)
    requires 0 < amount
    ensures GetSearchTerms(amount, ["[]"], ParseEmptyList) == Ok(JArray([]))
    ensures |StringItems(GetSearchTerms(amount, ["[]"], ParseEmptyList).value).value| != amount
  {
    assert Cleaned("[]", ParseEmptyList) == Some(JArray([]));
  }
}
