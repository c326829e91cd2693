/** Matching AMQP topic patterns against routing topics (`topicMatches` and
    `findSubscription`, libs/cap-transport-rabbitmq/src/rabbitmq-subscriber.ts). */
module TopicMatcher {
  import opened Basics

  // ---------------------------------------------------------------- words

  function Join(words: seq<string>): string {
    if words == [] then ""
    else if |words| == 1 then words[0]
    else words[0] + "." + Join(words[1..])
  }

  /** `text.split('.')`: never empty, and joining the words with dots gives the text back. */
  function Split(text: string): (words: seq<string>)
    ensures words != [] && Join(words) == text
    ensures forall w <- words :: '.' !in w
  {
    if text == "" then [""]
    else
      var rest := Split(text[1..]);
      if text[0] == '.' then [""] + rest
      else
        assert text == [text[0]] + text[1..];
        assert ([[text[0]] + rest[0]] + rest[1..])[1..] == rest[1..];
        [[text[0]] + rest[0]] + rest[1..]
  }

  /** Splitting is the only way to write a text as words without dots. */
  lemma {:induction false} SplitUndoesJoin(words: seq<string>)
    requires words != [] && forall w <- words :: '.' !in w
    ensures Split(Join(words)) == words
    decreases |words|, |words[0]|
  {
    var first, rest := words[0], words[1..];
    if first == "" {
      if rest != [] {
        assert Join(words) == "." + Join(rest);
        SplitUndoesJoin(rest);
      }
    } else {
      var shorter := [first[1..]] + rest;
      assert first == [first[0]] + first[1..];
      assert Join(words) == [first[0]] + Join(shorter);
      assert shorter[0] == first[1..] && shorter[1..] == rest;
      assert first[0] in first && words[0] in words;
      forall w <- shorter ensures '.' !in w {
        if w == first[1..] { assert forall c <- first[1..] :: c in first; } else { assert w in words; }
      }
      SplitUndoesJoin(shorter);
    }
  }

  /** A text without dots is one word, and what stands before the first dot is the first word. */
  lemma {:induction false} SplitAtFirstDot(first: string, rest: string)
    requires '.' !in first
    ensures Split(first) == [first] && Split(first + "." + rest) == [first] + Split(rest)
    decreases |first|
  {
    if first == "" {
      assert first + "." + rest == ['.'] + rest;
      SplitOne('.', rest);
    } else {
      assert first[0] in first && forall c <- first[1..] :: c in first;
      SplitAtFirstDot(first[1..], rest);
      SplitOne(first[0], first[1..]);
      SplitOne(first[0], first[1..] + "." + rest);
      assert first == [first[0]] + first[1..] && first + "." + rest == [first[0]] + (first[1..] + "." + rest);
      hide Split;
    }
  }

  lemma SplitOne(c: char, text: string)
    ensures Split([c] + text) == if c == '.' then [""] + Split(text) else [[c] + Split(text)[0]] + Split(text)[1..]
  {
    assert ([c] + text)[1..] == text;
  }

  // ---------------------------------------------------------------- what a match is

  /** One pattern word takes a run of topic words: `#` any run, `*` any one word, a literal
      itself. */
  predicate Takes(part: string, run: seq<string>) {
    part == "#" || (|run| == 1 && (part == "*" || part == run[0]))
  }

  /** The topic is cut into one run for each pattern word. */
  ghost predicate Segmentation(pattern: seq<string>, topic: seq<string>, runs: seq<seq<string>>) {
    && |runs| == |pattern| && Concat(runs) == topic
    && forall k :: 0 <= k < |pattern| ==> Takes(pattern[k], runs[k])
  }

  /** Whether the topic splits into runs that the pattern words take in turn. */
  ghost predicate Matches(pattern: seq<string>, topic: seq<string>) {
    exists runs :: Segmentation(pattern, topic, runs)
  }

  /** The same by cases on the first pattern word. */
  predicate MatchesByCases(pattern: seq<string>, topic: seq<string>) {
    if pattern == [] then topic == []
    else if pattern[0] == "#" then
      exists k :: 0 <= k <= |topic| && MatchesByCases(pattern[1..], topic[k..])
    else
      topic != [] && (pattern[0] == "*" || pattern[0] == topic[0]) && MatchesByCases(pattern[1..], topic[1..])
  }

  lemma PrependRun(pattern: seq<string>, topic: seq<string>, k: nat)
    requires pattern != [] && k <= |topic| && Takes(pattern[0], topic[..k])
    requires Matches(pattern[1..], topic[k..])
    ensures Matches(pattern, topic)
  {
    var runs :| Segmentation(pattern[1..], topic[k..], runs);
    var all := [topic[..k]] + runs;
    assert all[1..] == runs && Concat(all) == topic[..k] + topic[k..] == topic;
    assert Segmentation(pattern, topic, all);
  }

  lemma DropRun(pattern: seq<string>, topic: seq<string>) returns (k: nat)
    requires pattern != [] && Matches(pattern, topic)
    ensures k <= |topic| && Takes(pattern[0], topic[..k]) && Matches(pattern[1..], topic[k..])
  {
    var runs :| Segmentation(pattern, topic, runs);
    k := |runs[0]|;
    assert topic == runs[0] + Concat(runs[1..]);
    assert topic[..k] == runs[0] && topic[k..] == Concat(runs[1..]);
    assert forall k :: 0 <= k < |pattern[1..]| ==> pattern[1..][k] == pattern[k + 1] && runs[1..][k] == runs[k + 1];
    assert Segmentation(pattern[1..], topic[k..], runs[1..]);
  }

  lemma {:induction false} CasesMeanSegments(pattern: seq<string>, topic: seq<string>)
    ensures MatchesByCases(pattern, topic) <==> Matches(pattern, topic)
    decreases |pattern|
  {
    if pattern == [] {
      assert topic == [] ==> Segmentation(pattern, topic, []);
    } else {
      if MatchesByCases(pattern, topic) {
        var k: nat := 1;
        if pattern[0] == "#" {
          k :| 0 <= k <= |topic| && MatchesByCases(pattern[1..], topic[k..]);
        }
        CasesMeanSegments(pattern[1..], topic[k..]);
        PrependRun(pattern, topic, k);
      }
      if Matches(pattern, topic) {
        var k := DropRun(pattern, topic);
        CasesMeanSegments(pattern[1..], topic[k..]);
      }
    }
  }

  // ---------------------------------------------------------------- what the wildcards mean

  /** Patterns put together match topics put together. */
  lemma {:induction false} AppendMatches(a: seq<string>, b: seq<string>, topic: seq<string>)
    ensures Matches(a + b, topic) <==> exists i :: 0 <= i <= |topic| && Matches(a, topic[..i]) && Matches(b, topic[i..])
    decreases |a|
  {
    hide Matches, Takes;
    if a == [] {
      EmptyMatches(topic);
      assert a + b == b && topic[0..] == topic && topic[..0] == [];
      forall i | 0 <= i <= |topic| && Matches([], topic[..i]) ensures i == 0 { EmptyMatches(topic[..i]); }
      EmptyMatches([]);
    } else {
      assert (a + b)[0] == a[0] && (a + b)[1..] == a[1..] + b;
      if Matches(a + b, topic) {
        var k := DropRun(a + b, topic);
        AppendMatches(a[1..], b, topic[k..]);
        var i :| 0 <= i <= |topic[k..]| && Matches(a[1..], topic[k..][..i]) && Matches(b, topic[k..][i..]);
        assert topic[..k + i][..k] == topic[..k] && topic[..k + i][k..] == topic[k..][..i] && topic[k + i..] == topic[k..][i..];
        PrependRun(a, topic[..k + i], k);
      }
      if i :| 0 <= i <= |topic| && Matches(a, topic[..i]) && Matches(b, topic[i..]) {
        var k := DropRun(a, topic[..i]);
        assert topic[..i][..k] == topic[..k] && topic[..i][k..] == topic[k..][..i - k] && topic[k..][i - k..] == topic[i..];
        AppendMatches(a[1..], b, topic[k..]);
        PrependRun(a + b, topic, k);
      }
    }
  }

  lemma EmptyMatches(topic: seq<string>)
    ensures Matches([], topic) <==> topic == []
  {
    assert topic == [] ==> Segmentation([], topic, []);
  }

  /** A `#` stands for any words, also for none: what comes before it matches a beginning of the
      topic, and what comes after it an end. */
  lemma HashMatchesAnything(a: seq<string>, b: seq<string>, topic: seq<string>)
    ensures Matches(a + ["#"] + b, topic)
       <==> exists i, j :: 0 <= i <= j <= |topic| && Matches(a, topic[..i]) && Matches(b, topic[j..])
  {
    hide Matches;
    assert a + ["#"] + b == a + (["#"] + b);
    AppendMatches(a, ["#"] + b, topic);
    forall i | 0 <= i <= |topic| ensures Matches(["#"] + b, topic[i..]) <==> exists j :: i <= j <= |topic| && Matches(b, topic[j..]) {
      HashFirst(b, topic[i..]);
      forall k | 0 <= k <= |topic[i..]| ensures topic[i..][k..] == topic[i + k..] { }
      if j :| i <= j <= |topic| && Matches(b, topic[j..]) { assert topic[i..][j - i..] == topic[j..]; }
    }
  }

  lemma HashFirst(b: seq<string>, topic: seq<string>)
    ensures Matches(["#"] + b, topic) <==> exists k :: 0 <= k <= |topic| && Matches(b, topic[k..])
  {
    assert (["#"] + b)[1..] == b;
    if Matches(["#"] + b, topic) { var k := DropRun(["#"] + b, topic); }
    if k :| 0 <= k <= |topic| && Matches(b, topic[k..]) { PrependRun(["#"] + b, topic, k); }
  }

  /** Without `#`, pattern and topic have the same number of words, and each word of the pattern
      is `*` or the word of the topic. */
  lemma {:induction false} WordsMatchOneByOne(pattern: seq<string>, topic: seq<string>)
    requires "#" !in pattern
    ensures Matches(pattern, topic)
       <==> |pattern| == |topic| && forall k :: 0 <= k < |pattern| ==> pattern[k] == "*" || pattern[k] == topic[k]
    decreases |pattern|
  {
    if pattern == [] {
      EmptyMatches(topic);
    } else {
      assert pattern[0] != "#" && "#" !in pattern[1..];
      if Matches(pattern, topic) {
        var k := DropRun(pattern, topic);
        assert k == 1;
        WordsMatchOneByOne(pattern[1..], topic[1..]);
        assert forall i :: 1 <= i < |pattern| ==> pattern[i] == pattern[1..][i - 1] && topic[i] == topic[1..][i - 1];
      }
      if |pattern| == |topic| && forall k :: 0 <= k < |pattern| ==> pattern[k] == "*" || pattern[k] == topic[k] {
        assert forall i :: 0 <= i < |pattern| - 1 ==> pattern[1..][i] == pattern[i + 1] && topic[1..][i] == topic[i + 1];
        WordsMatchOneByOne(pattern[1..], topic[1..]);
        assert topic[..1] == [topic[0]];
        PrependRun(pattern, topic, 1);
      }
    }
  }

  // ---------------------------------------------------------------- the backtracking matcher

  /** `match(patternIndex, topicIndex)`. */
  method MatchFrom(pattern: seq<string>, topic: seq<string>, patternIndex: nat, topicIndex: nat) returns (r: bool)
    requires patternIndex <= |pattern| && topicIndex <= |topic|
    ensures r == MatchesByCases(pattern[patternIndex..], topic[topicIndex..])
    decreases |pattern| - patternIndex
  {
    ghost var rest := topic[topicIndex..];
    if patternIndex == |pattern| { return topicIndex == |topic|; }
    var part := pattern[patternIndex];
    assert pattern[patternIndex..][1..] == pattern[patternIndex + 1..];
    if part == "#" {
      var index := topicIndex;
      while index <= |topic|
        invariant topicIndex <= index <= |topic| + 1
        invariant forall k :: 0 <= k < index - topicIndex ==> !MatchesByCases(pattern[patternIndex + 1..], rest[k..])
      {
        assert rest[index - topicIndex..] == topic[index..];
        var found := MatchFrom(pattern, topic, patternIndex + 1, index);
        if found { return true; }
        index := index + 1;
      }
      return false;
    }
    if topicIndex == |topic| { return false; }
    if part != "*" && part != topic[topicIndex] { return false; }
    assert rest[1..] == topic[topicIndex + 1..];
    r := MatchFrom(pattern, topic, patternIndex + 1, topicIndex + 1);
  }

  /** `topicMatches`: true exactly when the words of the topic split into runs that the words
      of the pattern take. */
  method TopicMatches(pattern: string, topic: string) returns (r: bool)
    ensures r <==> Matches(Split(pattern), Split(topic))
  {
    var patternParts, topicParts := Split(pattern), Split(topic);
    r := MatchFrom(patternParts, topicParts, 0, 0);
    assert patternParts[0..] == patternParts && topicParts[0..] == topicParts;
    CasesMeanSegments(patternParts, topicParts);
  }

  // ---------------------------------------------------------------- a table instead of backtracking

  /** One row of the table from the row below it, right to left: entry `j` tells whether the
      pattern words from `part` on match the topic from word `j` on. */
  function RowFrom(part: string, topic: seq<string>, below: seq<bool>, j: nat): (row: seq<bool>)
    requires |below| == |topic| + 1 && j <= |topic|
    ensures |row| == |topic| + 1 - j
    decreases |topic| - j
  {
    if j == |topic| then [part == "#" && below[j]]
    else
      var right := RowFrom(part, topic, below, j + 1);
      [if part == "#" then below[j] || right[0] else (part == "*" || part == topic[j]) && below[j + 1]] + right
  }

  function Table(pattern: seq<string>, topic: seq<string>): (row: seq<bool>)
    ensures |row| == |topic| + 1
  {
    if pattern == [] then seq(|topic| + 1, j => j == |topic|)
    else RowFrom(pattern[0], topic, Table(pattern[1..], topic), 0)
  }

  lemma {:induction false} RowIsRight(pattern: seq<string>, topic: seq<string>, below: seq<bool>, j: nat, k: nat)
    requires pattern != [] && |below| == |topic| + 1 && j <= k <= |topic|
    requires forall i :: 0 <= i <= |topic| ==> (below[i] <==> MatchesByCases(pattern[1..], topic[i..]))
    ensures RowFrom(pattern[0], topic, below, j)[k - j] <==> MatchesByCases(pattern, topic[k..])
    decreases |topic| - j
  {
    if j < k {
      RowIsRight(pattern, topic, below, j + 1, k);
    } else if j < |topic| {
      RowIsRight(pattern, topic, below, j + 1, j + 1);
      assert topic[j..][1..] == topic[j + 1..] && topic[j..][0..] == topic[j..];
      if pattern[0] == "#" { HashStep(pattern, topic[j..]); }
    } else {
      assert topic[j..] == [] && topic[j..][0..] == topic[j..];
    }
  }

  /** A `#` either stops here or also takes the next word. */
  lemma HashStep(pattern: seq<string>, rest: seq<string>)
    requires pattern != [] && pattern[0] == "#" && rest != []
    ensures MatchesByCases(pattern, rest) <==>
            MatchesByCases(pattern[1..], rest) || MatchesByCases(pattern, rest[1..])
  {
    assert rest[0..] == rest;
    forall k | 1 <= k <= |rest| ensures rest[k..] == rest[1..][k - 1..] {}
    if MatchesByCases(pattern, rest[1..]) {
      var k :| 0 <= k <= |rest[1..]| && MatchesByCases(pattern[1..], rest[1..][k..]);
      assert rest[k + 1..] == rest[1..][k..];
    }
  }

  /** The backtracking matcher and the table agree on every pattern and topic. */
  lemma {:induction false} TableAgrees(pattern: seq<string>, topic: seq<string>, j: nat)
    requires j <= |topic|
    ensures Table(pattern, topic)[j] <==> Matches(pattern, topic[j..])
    decreases |pattern|
  {
    if pattern != [] {
      forall i | 0 <= i <= |topic|
        ensures Table(pattern[1..], topic)[i] <==> MatchesByCases(pattern[1..], topic[i..])
      {
        TableAgrees(pattern[1..], topic, i);
        CasesMeanSegments(pattern[1..], topic[i..]);
      }
      RowIsRight(pattern, topic, Table(pattern[1..], topic), 0, j);
    }
    CasesMeanSegments(pattern, topic[j..]);
  }

  // ---------------------------------------------------------------- finding the subscription

  datatype Subscription = Subscription(topic: string, group: string)

  ghost predicate Serves(s: Subscription, topic: string, group: string) {
    s.group == group && Matches(Split(s.topic), Split(topic))
  }

  ghost predicate IsFirst(subscriptions: seq<Subscription>, i: int, topic: string, group: string) {
    && 0 <= i < |subscriptions| && Serves(subscriptions[i], topic, group)
    && forall k :: 0 <= k < i ==> !Serves(subscriptions[k], topic, group)
  }

  /** `findSubscription` over the subscriptions in registration order: the first one of the
      group whose pattern matches. */
  method FindSubscription(subscriptions: seq<Subscription>, topic: string, group: string)
    returns (r: Option<Subscription>)
    ensures r.None? ==> forall s <- subscriptions :: !Serves(s, topic, group)
    ensures r.Some? ==> exists i :: IsFirst(subscriptions, i, topic, group) && r.value == subscriptions[i]
  {
    for i := 0 to |subscriptions|
      invariant forall k :: 0 <= k < i ==> !Serves(subscriptions[k], topic, group)
    {
      if subscriptions[i].group == group {
        var matched := TopicMatches(subscriptions[i].topic, topic);
        if matched {
          assert IsFirst(subscriptions, i, topic, group);
          return Some(subscriptions[i]);
        }
      }
    }
    r := None;
  }
}
