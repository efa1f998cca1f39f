/** Topic-model clustering around the fit: the preprocessing that turns
    a paper's text into words, the topic metadata built from each topic's
    top words, and the choice of each paper's dominant topic. The topic
    words and each document's topic probabilities come from the fitted
    model and are inputs here. */
module Lda {
  import opened Wrappers
  import opened Text
  import opened Seqs
  import opened PaperRecord
  import opened ClusterBase

  const NamePrefix: string := "Topic"

  // ----- preprocessing -----

  /** The characters `re.sub(r'[^a-zA-Z\s]', '', text)` keeps. */
  function KeepChar(): char -> bool {
    (c: char) => IsLetter(c) || IsSpace(c)
  }

  /** The words `len(w) > 2` keeps. */
  function LongWord(): string -> bool {
    (w: string) => |w| > 2
  }

  function Clean(s: string): string {
    Filter(s, KeepChar())
  }

  /** _preprocess_text: lower-case, drop everything but letters and
      whitespace, split on whitespace, drop words under three letters. */
  function Preprocess(text: string): (words: seq<string>)
    ensures forall k :: 0 <= k < |words| ==> |words[k]| >= 3
  {
    Filter(Split(Clean(Lower(text))), LongWord())
  }

  /** The characters of the words split from `s` come from `s` or from the
      word already begun. */
  lemma {:induction false} SplitFromChars(s: string, word: string)
    ensures forall w, c :: w in SplitFrom(s, word) && c in w ==> c in s || c in word
  {
    if s != [] {
      if IsSpace(s[0]) {
        SplitFromChars(s[1..], "");
      } else {
        SplitFromChars(s[1..], word + [s[0]]);
      }
    }
  }

  /** Every preprocessed word is made of the letters a to z only: the
      lower-casing comes before the removal, so no upper-case letter is
      left to keep. */
  lemma PreprocessLetters(text: string)
    ensures forall k, i :: 0 <= k < |Preprocess(text)| && 0 <= i < |Preprocess(text)[k]| ==>
      IsLowerLetter(Preprocess(text)[k][i])
  {
    var lowered := Lower(text);
    var cleaned := Clean(lowered);
    var split := Split(cleaned);
    var words := Preprocess(text);
    FilterMembers(lowered, KeepChar());
    SplitFromChars(cleaned, "");
    SplitYieldsWords(cleaned);
    FilterMembers(split, LongWord());
    forall k, i | 0 <= k < |words| && 0 <= i < |words[k]|
      ensures IsLowerLetter(words[k][i])
    {
      var w := words[k];
      assert w in split;
      var c := w[i];
      assert c in cleaned;
      assert c in lowered;
      var j :| 0 <= j < |lowered| && lowered[j] == c;
      assert !IsUpper(c);
      var m :| 0 <= m < |split| && split[m] == w;
      assert !IsSpace(c);
    }
  }

  /** A word is kept exactly when the cleaned text splits into it and it
      is longer than two letters. */
  lemma PreprocessKeepsLongWords(text: string)
    ensures forall w :: w in Preprocess(text) <==> w in Split(Clean(Lower(text))) && |w| > 2
  {
    FilterMembers(Split(Clean(Lower(text))), LongWord());
  }

  /** The words keep the order they have in the cleaned text. */
  lemma PreprocessKeepsOrder(text: string)
    ensures IsSubsequence(Preprocess(text), Split(Clean(Lower(text))))
  {
    FilterIsSubsequence(Split(Clean(Lower(text))), LongWord());
  }

  /** Every character of a join is one of the separator's or one of the parts'. */
  lemma {:induction false} JoinChars(sep: string, parts: seq<string>, p: char -> bool)
    requires forall i :: 0 <= i < |sep| ==> p(sep[i])
    requires forall k, i :: 0 <= k < |parts| && 0 <= i < |parts[k]| ==> p(parts[k][i])
    ensures forall i :: 0 <= i < |Join(sep, parts)| ==> p(Join(sep, parts)[i])
    decreases |parts|
  {
    if |parts| > 1 {
      var tail := parts[1..];
      forall k, i | 0 <= k < |tail| && 0 <= i < |tail[k]|
        ensures p(tail[k][i])
      {
        assert tail[k] == parts[k + 1];
      }
      JoinChars(sep, tail, p);
      var j := Join(sep, parts);
      assert j == parts[0] + sep + Join(sep, tail);
      forall i | 0 <= i < |j|
        ensures p(j[i])
      {
        if i < |parts[0]| {
          assert j[i] == parts[0][i];
        } else if i < |parts[0]| + |sep| {
          assert j[i] == sep[i - |parts[0]|];
        } else {
          assert j[i] == Join(sep, tail)[i - |parts[0]| - |sep|];
        }
      }
    }
  }

  function LowerOrSpace(): char -> bool {
    (c: char) => IsLowerLetter(c) || c == ' '
  }

  lemma LowerUnchanged(s: string)
    requires forall i :: 0 <= i < |s| ==> !IsUpper(s[i])
    ensures Lower(s) == s
  {
  }

  /** Preprocessing the words joined by spaces gives the same words back. */
  lemma PreprocessIdempotent(text: string)
    ensures Preprocess(Join(" ", Preprocess(text))) == Preprocess(text)
  {
    var words := Preprocess(text);
    var joined := Join(" ", words);
    PreprocessLetters(text);
    JoinChars(" ", words, LowerOrSpace());
    LowerUnchanged(joined);
    FilterKeepsAll(joined, KeepChar());
    forall k | 0 <= k < |words|
      ensures IsWord(words[k])
    {
      assert forall i :: 0 <= i < |words[k]| ==> IsLowerLetter(words[k][i]);
    }
    SplitJoin(words);
    FilterKeepsAll(words, LongWord());
  }

  // ----- topic metadata -----

  /** `[word for word, _ in topic_words]`. */
  function Words(topicWords: seq<(string, real)>): (words: seq<string>)
    ensures |words| == |topicWords|
  {
    seq(|topicWords|, k requires 0 <= k < |topicWords| => topicWords[k].0)
  }

  /** The metadata of topic `i` from its (word, probability) list. */
  function Info(i: nat, topicWords: seq<(string, real)>): (info: ClusterInfo)
    ensures info.id == i && info.size == None && |info.topWords| == |topicWords|
  {
    var words := Words(topicWords);
    ClusterInfo(i, ClusterName(NamePrefix, i, words), words, None)
  }

  /** Topic `i`'s entry has id `i`, lists the topic's words in the model's
      order and is named "Topic {i+1}: " followed by the words of its first
      three (word, probability) pairs. */
  lemma InfoSpec(i: nat, topicWords: seq<(string, real)>)
    ensures var info := Info(i, topicWords);
      && info.id == i && info.size == None
      && |info.topWords| == |topicWords|
      && (forall k :: 0 <= k < |topicWords| ==> info.topWords[k] == topicWords[k].0)
      && info.name == NamePrefix + " " + Decimal(i + 1) + ": "
           + Join(", ", Words(topicWords[..Min(3, |topicWords|)]))
  {
    var words := Words(topicWords);
    assert words[..Min(3, |topicWords|)] == Words(topicWords[..Min(3, |topicWords|)]);
  }

  /** No two topics share a name, whatever their words. */
  lemma TopicNamesDistinct(i: nat, topicWords: seq<(string, real)>, j: nat, otherWords: seq<(string, real)>)
    requires i != j
    ensures Info(i, topicWords).name != Info(j, otherWords).name
  {
    ClusterNamesDistinct(NamePrefix, i, j, Words(topicWords), Words(otherWords));
  }

  /** The metadata loop over the topics. */
  method Metadata(topics: seq<seq<(string, real)>>) returns (meta: seq<ClusterInfo>)
    ensures |meta| == |topics| && WellIndexed(meta)
    ensures forall i :: 0 <= i < |topics| ==> meta[i] == Info(i, topics[i])
  {
    meta := [];
    for i := 0 to |topics|
      invariant |meta| == i
      invariant forall k :: 0 <= k < i ==> meta[k] == Info(k, topics[k])
    {
      meta := meta + [Info(i, topics[i])];
    }
  }

  // ----- dominant topic -----

  /** The position Python's `max(doc_topics, key=lambda x: x[1])` picks: a
      largest probability, the first one on ties. */
  function DominantIndex(docTopics: seq<(int, real)>): (k: nat)
    requires docTopics != []
    ensures k < |docTopics|
    ensures forall j :: 0 <= j < |docTopics| ==> docTopics[j].1 <= docTopics[k].1
    ensures forall j :: 0 <= j < k ==> docTopics[j].1 < docTopics[k].1
  {
    if |docTopics| == 1 then 0
    else
      var k := DominantIndex(docTopics[..|docTopics| - 1]);
      if docTopics[|docTopics| - 1].1 > docTopics[k].1 then |docTopics| - 1 else k
  }

  /** The topic id of the dominant entry. */
  function DominantTopic(docTopics: seq<(int, real)>): int
    requires docTopics != []
  {
    docTopics[DominantIndex(docTopics)].0
  }

  /** The documents before the first one without topics (all of them when
      every document has some). */
  function FirstEmpty(docs: seq<seq<(int, real)>>): (e: nat)
    ensures e <= |docs|
    ensures forall k :: 0 <= k < e ==> docs[k] != []
    ensures e < |docs| ==> docs[e] == []
  {
    if docs == [] then 0
    else if docs[0] == [] then 0
    else 1 + FirstEmpty(docs[1..])
  }

  /** Every topic id the model reports names one of the `n` topics. */
  predicate TopicsIn(docs: seq<seq<(int, real)>>, n: nat) {
    forall k, j :: 0 <= k < |docs| && 0 <= j < |docs[k]| ==> 0 <= docs[k][j].0 < n
  }

  /** The message of `max()` on an empty sequence, in the wording of
      CPython before 3.12 (3.12 says "max() iterable argument is empty"). */
  const EmptyMax: string := "max() arg is an empty sequence"

  /** The loop `for idx, paper in enumerate(papers)` that gives each paper
      its dominant topic. `max` fails on a document without topics; the
      papers before it have been updated by then and the rest are untouched. */
  method AssignDominant(papers: array<Paper>, docs: seq<seq<(int, real)>>, meta: seq<ClusterInfo>)
    returns (r: Result<(), string>)
    requires |docs| == papers.Length && TopicsIn(docs, |meta|)
    modifies papers
    ensures r.Ok? <==> FirstEmpty(docs) == |docs|
    ensures r.Err? ==> r.error == EmptyMax
    ensures forall k :: 0 <= k < FirstEmpty(docs) ==>
      papers[k] == Labelled(old(papers[k]), DominantTopic(docs[k]), meta[DominantTopic(docs[k])].name)
    ensures forall k :: FirstEmpty(docs) <= k < papers.Length ==> papers[k] == old(papers[k])
  {
    var e := FirstEmpty(docs);
    for k := 0 to e
      invariant forall j :: 0 <= j < k ==>
        papers[j] == Labelled(old(papers[j]), DominantTopic(docs[j]), meta[DominantTopic(docs[j])].name)
      invariant forall j :: k <= j < papers.Length ==> papers[j] == old(papers[j])
    {
      var topic := DominantTopic(docs[k]);
      papers[k] := Labelled(papers[k], topic, meta[topic].name);
    }
    if e < |docs| {
      r := Err(EmptyMax);
    } else {
      r := Ok(());
    }
  }

  /** The dominant topics of documents that all have some. */
  function Dominants(docs: seq<seq<(int, real)>>): (labels: seq<int>)
    requires forall k :: 0 <= k < |docs| ==> docs[k] != []
    ensures |labels| == |docs|
  {
    seq(|docs|, k requires 0 <= k < |docs| => DominantTopic(docs[k]))
  }

  /** With topics for every document, the dominant topics are valid labels
      and the assignment is the labelling shared with the other algorithms. */
  lemma DominantsAreLabels(docs: seq<seq<(int, real)>>, n: nat)
    requires forall k :: 0 <= k < |docs| ==> docs[k] != []
    requires TopicsIn(docs, n)
    ensures LabelsIn(Dominants(docs), n)
  {
  }

  /** The papers as the loop leaves them when it stops at the first
      document without topics: those before it carry their dominant
      topic's id and name, the rest are as they were. */
  function Relabelled(ps: seq<Paper>, docs: seq<seq<(int, real)>>, topics: seq<seq<(string, real)>>): (r: seq<Paper>)
    requires |docs| == |ps| && TopicsIn(docs, |topics|)
    ensures |r| == |ps|
    ensures forall k :: FirstEmpty(docs) <= k < |ps| ==> r[k] == ps[k]
  {
    seq(|ps|, k requires 0 <= k < |ps| =>
      if k < FirstEmpty(docs) then
        var t := DominantTopic(docs[k]);
        Labelled(ps[k], t, Info(t, topics[t]).name)
      else ps[k])
  }

  /** LDAClustering.cluster after the fit. When some document has no
      topics, `max` fails part-way and the error is passed on with the
      papers before that document already labelled. */
  method Cluster(papers: array<Paper>, topics: seq<seq<(string, real)>>, docs: seq<seq<(int, real)>>)
    returns (r: Result<seq<ClusterInfo>, string>)
    requires |docs| == papers.Length && TopicsIn(docs, |topics|)
    modifies papers
    ensures r.Ok? <==> forall k :: 0 <= k < |docs| ==> docs[k] != []
    ensures r.Ok? ==> (
      && |r.value| == |topics| && WellIndexed(r.value)
      && (forall i :: 0 <= i < |topics| ==> r.value[i] == Info(i, topics[i]))
      && LabelsIn(Dominants(docs), |topics|)
      && papers[..] == Assigned(old(papers[..]), Dominants(docs), r.value))
    ensures r.Err? ==> r.error == EmptyMax && papers[..] == Relabelled(old(papers[..]), docs, topics)
  {
    var meta := Metadata(topics);
    var done := AssignDominant(papers, docs, meta);
    if done.Err? {
      assert papers[..] == Relabelled(old(papers[..]), docs, topics);
      return Err(done.error);
    }
    DominantsAreLabels(docs, |topics|);
    r := Ok(meta);
  }
}
