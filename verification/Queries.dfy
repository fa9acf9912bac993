/** The parameters of a query (src/http.rs, `parse_head`), against the pairs a client wrote. */
module Queries {
  import opened Wrappers
  import opened Text
  import opened Http
  import opened HttpParser
  import opened HttpRequests

  type Pair = (string, string)

  /** The text of a pair: key and value in any encoding around the first equals sign, or a key alone,
      which is a pair with an empty value. */
  ghost predicate Writes(text: string, pair: Pair) {
    exists key, value :: Halves(text, key, value) && Spells(key, pair.0) && Spells(value, pair.1)
  }

  predicate Halves(text: string, key: string, value: string) {
    && '=' !in key
    && (text == key + "=" + value || (text == key && value == ""))
  }

  /** The texts between the ampersands write these pairs; an empty text writes none. */
  ghost predicate Write(texts: seq<string>, pairs: seq<Pair>)
    decreases |texts|
  {
    if texts == [] then pairs == []
    else if texts[0] == "" then Write(texts[1..], pairs)
    else pairs != [] && Writes(texts[0], pairs[0]) && Write(texts[1..], pairs[1..])
  }

  ghost predicate HasKey(pairs: seq<Pair>, key: string, lossy: Lossy) {
    exists i :: 0 <= i < |pairs| && lossy(pairs[i].0) == key
  }

  /** No pair behind position i has the same key. */
  ghost predicate IsLast(pairs: seq<Pair>, i: nat, lossy: Lossy)
    requires i < |pairs|
  {
    forall j :: i < j < |pairs| ==> lossy(pairs[j].0) != lossy(pairs[i].0)
  }

  /** The keys are those of the pairs, and each has the value of the last pair of that key. */
  ghost predicate LastWins(params: map<string, string>, pairs: seq<Pair>, lossy: Lossy) {
    && (forall key :: key in params <==> HasKey(pairs, key, lossy))
    && (forall i :: 0 <= i < |pairs| && IsLast(pairs, i, lossy) ==>
          lossy(pairs[i].0) in params && params[lossy(pairs[i].0)] == lossy(pairs[i].1))
  }

  lemma HalvesAreCut(text: string, key: string, value: string)
    requires Halves(text, key, value)
    ensures (match SplitOnce(text, "=") case Some(kv) => kv case None => (text, "")) == (key, value)
  {
    if text == key + "=" + value {
      SplitOnceAt(key, '=', value);
    } else {
      NoChar(text, '=');
    }
  }

  lemma PairIsRead(texts: seq<string>, pair: Pair, seen: map<string, string>, lossy: Lossy)
    requires texts != [] && texts[0] != "" && Writes(texts[0], pair)
    ensures Params(texts, seen, lossy) == Params(texts[1..], seen[lossy(pair.0) := lossy(pair.1)], lossy)
  {
    var key, value :| Halves(texts[0], key, value) && Spells(key, pair.0) && Spells(value, pair.1);
    HalvesAreCut(texts[0], key, value);
    assert key[0..] == key && value[0..] == value;
    DecodingUndoesEncoding(key, 0, pair.0);
    DecodingUndoesEncoding(value, 0, pair.1);
    hide Spells;
    hide Halves;
    hide DecodeFrom;
    hide SplitOnce;
  }

  /** What the pairs add to the parameters seen before them. */
  ghost predicate Adds(params: map<string, string>, seen: map<string, string>, pairs: seq<Pair>, lossy: Lossy) {
    && (forall key :: key in params <==> key in seen || HasKey(pairs, key, lossy))
    && (forall key :: key in seen && !HasKey(pairs, key, lossy) ==> params[key] == seen[key])
    && (forall i :: 0 <= i < |pairs| && IsLast(pairs, i, lossy) ==> params[lossy(pairs[i].0)] == lossy(pairs[i].1))
  }

  lemma OneMorePair(params: map<string, string>, seen: map<string, string>, pairs: seq<Pair>, lossy: Lossy)
    requires pairs != []
    requires Adds(params, seen[lossy(pairs[0].0) := lossy(pairs[0].1)], pairs[1..], lossy)
    ensures Adds(params, seen, pairs, lossy)
  {
    var k, later := lossy(pairs[0].0), pairs[1..];
    forall key ensures HasKey(pairs, key, lossy) <==> key == k || HasKey(later, key, lossy) {
      if i :| 0 <= i < |later| && lossy(later[i].0) == key {
        assert pairs[i + 1] == later[i];
      }
    }
    forall i | 0 <= i < |pairs| && IsLast(pairs, i, lossy)
      ensures lossy(pairs[i].0) in params && params[lossy(pairs[i].0)] == lossy(pairs[i].1) {
      if i == 0 {
        assert !HasKey(later, k, lossy);
      } else {
        assert later[i - 1] == pairs[i] && IsLast(later, i - 1, lossy);
      }
    }
  }

  lemma {:induction false} PairsAreRead(texts: seq<string>, pairs: seq<Pair>, seen: map<string, string>, lossy: Lossy)
    requires Write(texts, pairs)
    ensures Adds(Params(texts, seen, lossy), seen, pairs, lossy)
    decreases |texts|
  {
    if texts != [] {
      if texts[0] == "" {
        PairsAreRead(texts[1..], pairs, seen, lossy);
      } else {
        var more := seen[lossy(pairs[0].0) := lossy(pairs[0].1)];
        PairIsRead(texts, pairs[0], seen, lossy);
        PairsAreRead(texts[1..], pairs[1..], more, lossy);
        hide Params;
        hide Adds;
        OneMorePair(Params(texts, seen, lossy), seen, pairs, lossy);
      }
    }
  }

  /** However a client encodes the pairs of its query, the request has their keys as parameters,
      each with the value of the last pair of that key. */
  lemma QueryIsRead(r: Request, texts: seq<string>, pairs: seq<Pair>, lossy: Lossy)
    requires Clean(r, lossy) && texts != [] && r.rawQuery == Join(texts, "&")
    requires (forall k :: 0 <= k < |texts| ==> '&' !in texts[k]) && Write(texts, pairs)
    ensures LastWins(r.params, pairs, lossy)
  {
    assert r.params == Params(Split(r.rawQuery, "&"), map[], lossy);
    hide Clean;
    hide Write;
    hide Params;
    hide Adds;
    hide LastWins;
    SplitJoinChar(texts, '&');
    PairsAreRead(texts, pairs, map[], lossy);
    AddedToNothing(r.params, pairs, lossy);
  }

  lemma AddedToNothing(params: map<string, string>, pairs: seq<Pair>, lossy: Lossy)
    requires Adds(params, map[], pairs, lossy)
    ensures LastWins(params, pairs, lossy)
  {
    hide IsLast;
    forall i | 0 <= i < |pairs| && IsLast(pairs, i, lossy)
      ensures lossy(pairs[i].0) in params && params[lossy(pairs[i].0)] == lossy(pairs[i].1) {
      assert HasKey(pairs, lossy(pairs[i].0), lossy);
    }
  }
}
