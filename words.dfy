/**
 * The word counting of the word-cloud handler: `re.findall(r'\w+', text)`
 * over the lower-cased file text, and the frequency dict
 * `{word: words.count(word) for word in set(words)}` built from its result.
 */
module Words {
  import opened Text

  /** A character `\w` matches, restricted to ASCII: a letter, a digit or `_`. */
  predicate IsWordChar(c: char) {
    'a' <= c <= 'z' || 'A' <= c <= 'Z' || '0' <= c <= '9' || c == '_'
  }

  /** Every character of `w` is a word character. */
  predicate AllWord(w: string) {
    forall j :: 0 <= j < |w| ==> IsWordChar(w[j])
  }

  /** The length of the run of word characters `s` starts with. */
  function RunLength(s: string): (n: nat)
    ensures n <= |s|
    ensures forall j :: 0 <= j < n ==> IsWordChar(s[j])
    ensures n < |s| ==> !IsWordChar(s[n])
  {
    if |s| == 0 || !IsWordChar(s[0]) then 0 else 1 + RunLength(s[1..])
  }

  /**
   * `re.findall(r'\w+', s)`: the maximal runs of word characters of `s`, left
   * to right. Every match is non-empty and made of word characters only.
   */
  function Tokens(s: string): (ts: seq<string>)
    ensures forall k :: 0 <= k < |ts| ==> |ts[k]| > 0 && AllWord(ts[k])
    decreases |s|
  {
    if |s| == 0 then []
    else if !IsWordChar(s[0]) then Tokens(s[1..])
    else
      var n := RunLength(s);
      [s[..n]] + Tokens(s[n..])
  }

  /** A run of word characters stops at the first character that is not one. */
  lemma RunLengthBefore(a: string, rest: string)
    requires |rest| > 0 && !IsWordChar(rest[0])
    ensures RunLength(a + rest) == RunLength(a)
  {
    var s, n, m := a + rest, RunLength(a + rest), RunLength(a);
    assert forall j :: 0 <= j < |a| ==> s[j] == a[j];
    assert s[|a|] == rest[0];
  }

  /** A non-empty string of word characters is one match, the whole string. */
  lemma TokensOfWord(w: string)
    requires |w| > 0 && AllWord(w)
    ensures Tokens(w) == [w]
  {
    assert RunLength(w) == |w|;
    assert w[..|w|] == w && w[|w|..] == [];
  }

  /**
   * A character that is not a word character separates matches: the matches
   * of `a + [c] + b` are those of `a` followed by those of `b`. With
   * `TokensOfWord` and `Tokens("") == []` this determines every match list.
   */
  lemma {:induction false} TokensSplitAt(a: string, c: char, b: string)
    requires !IsWordChar(c)
    ensures Tokens(a + [c] + b) == Tokens(a) + Tokens(b)
    decreases |a|
  {
    var s := a + [c] + b;
    if |a| == 0 {
      assert s[1..] == b;
    } else if !IsWordChar(a[0]) {
      assert s[0] == a[0] && s[1..] == a[1..] + [c] + b;
      TokensSplitAt(a[1..], c, b);
    } else {
      RunLengthBefore(a, [c] + b);
      assert s == a + ([c] + b);
      var m := RunLength(a);
      assert s[0] == a[0];
      assert s[..m] == a[..m];
      assert s[m..] == a[m..] + [c] + b;
      TokensSplitAt(a[m..], c, b);
      assert Tokens(a) == [a[..m]] + Tokens(a[m..]);
    }
  }

  /** The matches of a lower-case text are lower case. */
  lemma {:induction false} TokensLower(s: string)
    requires IsLower(s)
    ensures forall k :: 0 <= k < |Tokens(s)| ==> IsLower(Tokens(s)[k])
    decreases |s|
  {
    if |s| > 0 {
      if !IsWordChar(s[0]) {
        TokensLower(s[1..]);
      } else {
        var n := RunLength(s);
        TokensLower(s[n..]);
        assert Tokens(s) == [s[..n]] + Tokens(s[n..]);
      }
    }
  }

  /** `ws.count(w)`: how many entries of `ws` are `w`. */
  function Count(ws: seq<string>, w: string): (n: nat)
    ensures n <= |ws|
    ensures n > 0 <==> w in ws
  {
    if |ws| == 0 then 0
    else
      assert ws == ws[..|ws| - 1] + [ws[|ws| - 1]];
      Count(ws[..|ws| - 1], w) + (if ws[|ws| - 1] == w then 1 else 0)
  }

  /** Counting agrees with multiplicity in the multiset of the entries. */
  lemma {:induction false} CountIsMultiplicity(ws: seq<string>, w: string)
    ensures Count(ws, w) == multiset(ws)[w]
  {
    if |ws| > 0 {
      var init := ws[..|ws| - 1];
      CountIsMultiplicity(init, w);
      assert ws == init + [ws[|ws| - 1]];
      assert multiset(ws) == multiset(init) + multiset{ws[|ws| - 1]};
    }
  }

  /**
   * `{word: words.count(word) for word in set(words)}`: one entry per
   * distinct word, holding the number of times it occurs.
   */
  function Frequency(words: seq<string>): (freq: map<string, nat>)
    ensures forall w :: w in freq <==> w in words
    ensures forall w :: w in freq ==> freq[w] == multiset(words)[w] && freq[w] >= 1
  {
    var freq := map w | w in words :: Count(words, w);
    assert forall w :: w in freq ==> freq[w] == multiset(words)[w] by {
      forall w | w in freq ensures freq[w] == multiset(words)[w] {
        CountIsMultiplicity(words, w);
      }
    }
    freq
  }

  /** The distinct entries of `ws`, each once, in the order they first occur. */
  function Unique(ws: seq<string>): (u: seq<string>)
    ensures Distinct(u)
    ensures forall w :: w in u <==> w in ws
  {
    if |ws| == 0 then []
    else
      var u := Unique(ws[..|ws| - 1]);
      assert ws == ws[..|ws| - 1] + [ws[|ws| - 1]];
      if ws[|ws| - 1] in u then u else u + [ws[|ws| - 1]]
  }

  /** The sum of the entries of `freq` under `keys`. */
  function Sum(freq: map<string, nat>, keys: seq<string>): nat
    requires forall k :: k in keys ==> k in freq
  {
    if |keys| == 0 then 0 else Sum(freq, keys[..|keys| - 1]) + freq[keys[|keys| - 1]]
  }

  /** The sum of the counts in `ws` of the strings in `keys`. */
  function CountSum(ws: seq<string>, keys: seq<string>): nat {
    if |keys| == 0 then 0 else CountSum(ws, keys[..|keys| - 1]) + Count(ws, keys[|keys| - 1])
  }

  /** One more entry `x` adds one to the count sum over distinct keys that include `x`, and nothing otherwise. */
  lemma {:induction false} CountSumStep(init: seq<string>, x: string, keys: seq<string>)
    requires Distinct(keys)
    ensures CountSum(init + [x], keys) == CountSum(init, keys) + (if x in keys then 1 else 0)
  {
    if |keys| > 0 {
      var ks, k := keys[..|keys| - 1], keys[|keys| - 1];
      assert keys == ks + [k];
      CountSumStep(init, x, ks);
      assert (init + [x])[..|init|] == init;
      assert Count(init + [x], k) == Count(init, k) + (if x == k then 1 else 0);
      assert x in keys <==> x in ks || x == k;
    }
  }

  /** The counts of the distinct entries add up to the number of entries. */
  lemma {:induction false} CountSumUnique(ws: seq<string>)
    ensures CountSum(ws, Unique(ws)) == |ws|
  {
    if |ws| > 0 {
      var init, x := ws[..|ws| - 1], ws[|ws| - 1];
      assert ws == init + [x];
      CountSumUnique(init);
      var u := Unique(init);
      CountSumStep(init, x, u);
      if x !in u {
        assert (u + [x])[..|u|] == u;
        assert Count(ws, x) == Count(init, x) + 1;
      }
    }
  }

  /** Over keys that occur, summing the frequency entries is summing the counts. */
  lemma {:induction false} SumFrequency(words: seq<string>, keys: seq<string>)
    requires forall k :: k in keys ==> k in words
    ensures forall k :: k in keys ==> k in Frequency(words)
    ensures Sum(Frequency(words), keys) == CountSum(words, keys)
  {
    if |keys| > 0 {
      var ks := keys[..|keys| - 1];
      assert forall k :: k in ks ==> k in keys;
      SumFrequency(words, ks);
    }
  }

  /**
   * The frequency dict accounts for every match once: its values over the
   * distinct words add up to the number of words.
   */
  lemma FrequencyTotal(words: seq<string>)
    ensures forall k :: k in Unique(words) ==> k in Frequency(words)
    ensures Sum(Frequency(words), Unique(words)) == |words|
  {
    SumFrequency(words, Unique(words));
    CountSumUnique(words);
  }

  /** The word frequencies of a text: the counts of the matches of its lower-cased form. */
  function WordFrequency(text: string): map<string, nat> {
    Frequency(Tokens(Lower(text)))
  }

  /** Every word of the frequency dict is a non-empty lower-case run of word characters. */
  lemma WordFrequencyKeys(text: string)
    ensures forall w :: w in WordFrequency(text) ==> |w| > 0 && AllWord(w) && IsLower(w)
  {
    LowerIsLower(text);
    TokensLower(Lower(text));
  }
}
