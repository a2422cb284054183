/** The server side of the quiz, the handler of POST /api/results: it
    counts how often each learning type occurs among the submitted answers,
    picks the dominant one, stores a result record with that type's badge
    and answers with the record and the type's description. */
module ResultController {
  import opened Wrappers
  import opened JsObject
  import opened LearningTypes

  /* ---------- The frequency count ---------- */

  /** The `typeCount` object after the tally loop has seen `answers`: each
      answer in turn performs `typeCount[type] = (typeCount[type] || 0) + 1`.
      A stored count is at least 1, so `|| 0` only fires on a missing key. */
  function CountTable(answers: seq<string>): (t: Object<nat>)
    ensures forall x :: x in t.values <==> x in answers
  {
    if answers == [] then Empty()
    else
      var before := CountTable(answers[..|answers| - 1]);
      var learningType := answers[|answers| - 1];
      Put(before, learningType, Get(before, learningType).GetOr(0) + 1)
  }

  /** The tally loop. */
  method Tally(answers: seq<string>) returns (typeCount: Object<nat>)
    ensures typeCount == CountTable(answers)
    ensures typeCount.Valid()
    ensures forall x :: x in typeCount.values <==> x in answers
    ensures forall x :: x in typeCount.values ==> typeCount.values[x] == multiset(answers)[x]
    ensures NonIndex(typeCount.keys) == Dedup(NonIndex(answers))
  {
    typeCount := Empty();
    for i := 0 to |answers|
      invariant typeCount == CountTable(answers[..i])
    {
      var learningType := answers[i];
      assert answers[..i + 1][..i] == answers[..i];
      typeCount := Put(typeCount, learningType, Get(typeCount, learningType).GetOr(0) + 1);
    }
    assert answers[..|answers|] == answers;
    CountTableSpec(answers);
  }

  /** After the loop every type has its number of occurrences as its count,
      exactly the occurring types are keys, and the keys that are not array
      indices are listed in order of first occurrence. */
  lemma {:induction false} CountTableSpec(answers: seq<string>)
    ensures CountTable(answers).Valid()
    ensures forall x :: x in CountTable(answers).values <==> x in answers
    ensures forall x :: x in CountTable(answers).values ==>
      CountTable(answers).values[x] == multiset(answers)[x]
    ensures NonIndex(CountTable(answers).keys) == Dedup(NonIndex(answers))
    decreases |answers|
  {
    if answers != [] {
      var p := answers[..|answers| - 1];
      var x := answers[|answers| - 1];
      var before := CountTable(p);
      assert answers == p + [x];
      assert CountTable(answers) == Put(before, x, Get(before, x).GetOr(0) + 1);
      CountTableSpec(p);
      CountTableValid(answers);
      CountStep(before, p, x);
      OrderStep(before, p, x);
    }
  }

  /** The tally object is a well-formed plain object. */
  lemma {:induction false} CountTableValid(answers: seq<string>)
    ensures CountTable(answers).Valid()
    decreases |answers|
  {
    if answers != [] {
      var before := CountTable(answers[..|answers| - 1]);
      var x := answers[|answers| - 1];
      CountTableValid(answers[..|answers| - 1]);
      PutValid(before, x, Get(before, x).GetOr(0) + 1);
    }
  }

  /** One turn of the loop keeps the counts equal to the occurrences. */
  lemma CountStep(before: Object<nat>, p: seq<string>, x: string)
    requires forall y :: y in before.values <==> y in p
    requires forall y :: y in before.values ==> before.values[y] == multiset(p)[y]
    ensures var after := Put(before, x, Get(before, x).GetOr(0) + 1);
      && (forall y :: y in after.values <==> y in p + [x])
      && (forall y :: y in after.values ==> after.values[y] == multiset(p + [x])[y])
  {
    var after := Put(before, x, Get(before, x).GetOr(0) + 1);
    assert multiset(p + [x]) == multiset(p) + multiset{x};
    forall y
      ensures y in after.values <==> y in p + [x]
      ensures y in after.values ==> after.values[y] == multiset(p + [x])[y]
    {
      if y != x {
        assert Get(after, y) == Get(before, y);
      } else {
        assert Get(after, x).Some?;
      }
    }
  }

  /** One turn of the loop keeps the non-index keys in first-occurrence
      order. */
  lemma OrderStep(before: Object<nat>, p: seq<string>, x: string)
    requires forall y :: y in before.values <==> y in p
    requires NonIndex(before.keys) == Dedup(NonIndex(p))
    ensures NonIndex(Put(before, x, Get(before, x).GetOr(0) + 1).keys) == Dedup(NonIndex(p + [x]))
  {
    var after := Put(before, x, Get(before, x).GetOr(0) + 1);
    var np := NonIndex(p);
    assert (p + [x])[..|p|] == p;
    if !IsArrayIndex(x) {
      assert NonIndex(p + [x]) == np + [x];
      assert (np + [x])[..|np|] == np;
      if x in before.values {
        assert x in np;
      } else {
        assert x !in np;
        assert (before.keys + [x])[..|before.keys|] == before.keys;
      }
    }
  }

  /** The sum of the counts listed under `keys`. */
  function SumValues(keys: seq<string>, values: map<string, nat>): (sum: nat)
  {
    if keys == [] then 0
    else (if keys[0] in values then values[keys[0]] else 0) + SumValues(keys[1..], values)
  }

  lemma {:induction false} SumValuesUpdateAbsent(keys: seq<string>, values: map<string, nat>, x: string, v: nat)
    requires forall k :: k in keys ==> k in values
    requires x !in keys
    ensures SumValues(keys, values[x := v]) == SumValues(keys, values)
    decreases |keys|
  {
    if keys != [] {
      SumValuesUpdateAbsent(keys[1..], values, x, v);
    }
  }

  lemma {:induction false} SumValuesUpdatePresent(keys: seq<string>, values: map<string, nat>, x: string, v: nat)
    requires forall k :: k in keys ==> k in values
    requires NoDup(keys) && x in keys
    ensures SumValues(keys, values[x := v]) + values[x] == SumValues(keys, values) + v
    decreases |keys|
  {
    assert keys == [keys[0]] + keys[1..];
    NoDupCons(keys[0], keys[1..]);
    if keys[0] == x {
      SumValuesUpdateAbsent(keys[1..], values, x, v);
    } else {
      SumValuesUpdatePresent(keys[1..], values, x, v);
    }
  }

  lemma {:induction false} SumValuesAppend(keys: seq<string>, values: map<string, nat>, x: string)
    requires forall k :: k in keys ==> k in values
    requires x in values
    ensures SumValues(keys + [x], values) == SumValues(keys, values) + values[x]
    decreases |keys|
  {
    if keys == [] {
      assert keys + [x] == [x];
    } else {
      assert (keys + [x])[1..] == keys[1..] + [x];
      SumValuesAppend(keys[1..], values, x);
    }
  }

  lemma {:induction false} SumValuesInsertIndex(keys: seq<string>, values: map<string, nat>, x: string)
    requires forall k :: k in keys ==> k in values
    requires x in values && IsArrayIndex(x)
    ensures SumValues(InsertIndex(keys, x), values) == SumValues(keys, values) + values[x]
    decreases |keys|
  {
    if keys == [] || !IsArrayIndex(keys[0]) || IndexValue(x) < IndexValue(keys[0]) {
      assert ([x] + keys)[1..] == keys;
    } else {
      var tail := InsertIndex(keys[1..], x);
      assert ([keys[0]] + tail)[1..] == tail;
      SumValuesInsertIndex(keys[1..], values, x);
    }
  }

  /** One turn of the loop adds exactly one to the sum of the counts. */
  lemma SumStep(before: Object<nat>, x: string)
    requires before.Valid()
    ensures var after := Put(before, x, Get(before, x).GetOr(0) + 1);
      SumValues(after.keys, after.values) == SumValues(before.keys, before.values) + 1
  {
    if x in before.values {
      SumStepPresent(before, x);
    } else {
      SumStepAbsent(before, x);
    }
  }

  lemma SumStepPresent(before: Object<nat>, x: string)
    requires before.Valid() && x in before.values
    ensures var after := Put(before, x, before.values[x] + 1);
      SumValues(after.keys, after.values) == SumValues(before.keys, before.values) + 1
  {
    SumValuesUpdatePresent(before.keys, before.values, x, before.values[x] + 1);
  }

  lemma SumStepAbsent(before: Object<nat>, x: string)
    requires before.Valid() && x !in before.values
    ensures var after := Put(before, x, 1);
      SumValues(after.keys, after.values) == SumValues(before.keys, before.values) + 1
  {
    var values := before.values[x := 1];
    SumValuesUpdateAbsent(before.keys, before.values, x, 1);
    if IsArrayIndex(x) {
      SumValuesInsertIndex(before.keys, values, x);
    } else {
      SumValuesAppend(before.keys, values, x);
    }
  }

  /** The counts add up to the number of answers. */
  lemma {:induction false} CountsSumToLength(answers: seq<string>)
    ensures SumValues(CountTable(answers).keys, CountTable(answers).values) == |answers|
    decreases |answers|
  {
    if answers != [] {
      var p := answers[..|answers| - 1];
      var x := answers[|answers| - 1];
      var before := CountTable(p);
      assert CountTable(answers) == Put(before, x, Get(before, x).GetOr(0) + 1);
      CountsSumToLength(p);
      CountTableValid(p);
      SumStep(before, x);
    }
  }

  /* ---------- The dominant type ---------- */

  /** `Object.keys(typeCount).reduce((a, b) => typeCount[a] > typeCount[b] ? a : b)`
      on a non-empty key list: a left fold that starts from the first key and
      replaces the running choice unless it is strictly more frequent. */
  function PickDominant(keys: seq<string>, count: map<string, nat>): (d: string)
    requires |keys| > 0
    requires forall k :: k in keys ==> k in count
    ensures d in keys
    decreases |keys|
  {
    if |keys| == 1 then keys[0]
    else
      var a := PickDominant(keys[..|keys| - 1], count);
      var b := keys[|keys| - 1];
      if count[a] > count[b] then a else b
  }

  /** The fold yields a key of maximum count, and because of the strict `>`
      the last such key: every key after it has a strictly smaller count. */
  lemma {:induction false} PickDominantIsLastMax(keys: seq<string>, count: map<string, nat>) returns (i: nat)
    requires |keys| > 0
    requires forall k :: k in keys ==> k in count
    ensures i < |keys| && keys[i] == PickDominant(keys, count)
    ensures forall j :: 0 <= j < |keys| ==> count[keys[j]] <= count[keys[i]]
    ensures forall j :: i < j < |keys| ==> count[keys[j]] < count[keys[i]]
    decreases |keys|
  {
    if |keys| == 1 {
      i := 0;
    } else {
      var p := keys[..|keys| - 1];
      var b := keys[|keys| - 1];
      var i' := PickDominantIsLastMax(p, count);
      assert forall j :: 0 <= j < |p| ==> p[j] == keys[j];
      if count[p[i']] > count[b] {
        i := i';
      } else {
        i := |keys| - 1;
      }
    }
  }

  /** The dominant type of a list of answers, or None where the source's
      `reduce` of an empty key list throws a TypeError. */
  function DominantType(answers: seq<string>): (r: Option<string>)
    ensures r.None? <==> answers == []
    ensures r.Some? ==> r.value in answers
  {
    var typeCount := CountTable(answers);
    CountTableSpec(answers);
    assert answers != [] ==> answers[0] in answers;
    if typeCount.keys == [] then
      None
    else
      Some(PickDominant(typeCount.keys, typeCount.values))
  }

  /** No type occurs more often among the answers than the dominant one. */
  lemma DominantIsMostFrequent(answers: seq<string>)
    requires answers != []
    ensures forall x :: multiset(answers)[x] <= multiset(answers)[DominantType(answers).value]
  {
    var t := CountTable(answers);
    CountTableSpec(answers);
    var i := PickDominantIsLastMax(t.keys, t.values);
    forall x | x in answers
      ensures multiset(answers)[x] <= multiset(answers)[DominantType(answers).value]
    {
      var j :| 0 <= j < |t.keys| && t.keys[j] == x;
    }
  }

  /** Ties go to the type listed last among the most frequent ones in the
      key order of `typeCount`. */
  lemma DominantTieBreak(answers: seq<string>) returns (i: nat)
    requires answers != []
    ensures var keys := CountTable(answers).keys;
      && i < |keys| && keys[i] == DominantType(answers).value
      && forall j :: i < j < |keys| ==> multiset(answers)[keys[j]] < multiset(answers)[keys[i]]
  {
    var t := CountTable(answers);
    CountTableSpec(answers);
    i := PickDominantIsLastMax(t.keys, t.values);
  }

  /** When no answer is an array-index string (as with the four learning
      types), the key order is the order of first occurrence: the dominant
      type is the most frequent type that first occurs last, and every type
      first occurring after it is strictly less frequent. */
  lemma DominantByFirstOccurrence(answers: seq<string>) returns (i: nat)
    requires answers != []
    requires forall x :: x in answers ==> !IsArrayIndex(x)
    ensures var order := Dedup(answers);
      && i < |order| && order[i] == DominantType(answers).value
      && (forall j :: 0 <= j < |order| ==> multiset(answers)[order[j]] <= multiset(answers)[order[i]])
      && (forall j :: i < j < |order| ==> multiset(answers)[order[j]] < multiset(answers)[order[i]])
  {
    KeysInFirstOccurrenceOrder(answers);
    DominantIsMostFrequent(answers);
    i := DominantTieBreak(answers);
  }

  /** With no array-index answer, Object.keys(typeCount) lists the types in
      the order of their first occurrence. */
  lemma KeysInFirstOccurrenceOrder(answers: seq<string>)
    requires forall x :: x in answers ==> !IsArrayIndex(x)
    ensures CountTable(answers).keys == Dedup(answers)
  {
    var keys := CountTable(answers).keys;
    CountTableSpec(answers);
    NonIndexKeysAreAll(answers);
    assert forall x :: x in keys ==> x in answers;
    NonIndexKeysAreAll(keys);
  }

  /** Two answers: the second wins, whether it ties with the first at one
      each or equals it. */
  lemma TwoAnswersPickSecond(first: string, second: string)
    requires !IsArrayIndex(first) && !IsArrayIndex(second)
    ensures DominantType([first, second]) == Some(second)
  {
    var answers := [first, second];
    assert answers[..1] == [first];
    assert [first][..0] == [];
    var i := DominantByFirstOccurrence(answers);
    if first != second {
      assert Dedup([first]) == [first];
      assert Dedup(answers) == [first, second];
      assert multiset(answers)[first] == 1 && multiset(answers)[second] == 1;
    }
  }

  /* ---------- Badges and descriptions ---------- */

  /** `badgeUrls` */
  function BadgeUrls(): (m: map<string, string>)
    ensures m.Keys == KnownTypes()
    ensures forall a, b :: a in m && b in m && a != b ==> m[a] != m[b]
  {
    map[
      Visual := "/badges/visual.png",
      Auditory := "/badges/auditory.png",
      ReadingWriting := "/badges/reading.png",
      Kinesthetic := "/badges/kinesthetic.png"
    ]
  }

  /** `badgeUrls[type]`: undefined for a type that is not one of the four. */
  function BadgeUrl(learningType: string): (r: Option<string>)
    ensures r.Some? <==> learningType in KnownTypes()
    ensures r.Some? ==> r.value in BadgeUrls().Values
  {
    if learningType in BadgeUrls() then Some(BadgeUrls()[learningType]) else None
  }

  datatype Details = Details(speciality: string, suggestions: map<string, string>)

  /** The three numbered suggestions of one type. */
  function Suggestions(first: string, second: string, third: string): (m: map<string, string>)
    ensures m.Keys == {"1", "2", "3"}
    ensures m["1"] == first && m["2"] == second && m["3"] == third
  {
    map["1" := first, "2" := second, "3" := third]
  }

  /* The texts of `learningDetails`. */
  const VisualSpeciality: string := "You learn best through images, charts, and spatial understanding."
  const VisualSuggestion1: string := "Use diagrams, color coding, and videos to study."
  const VisualSuggestion2: string := "Organize information using mind maps and visual notes."
  const VisualSuggestion3: string := "Use flashcards with images to reinforce concepts."
  const AuditorySpeciality: string := "You grasp concepts better through listening and verbal explanations."
  const AuditorySuggestion1: string := "Listen to lectures, audiobooks, or recordings to retain information."
  const AuditorySuggestion2: string := "Discuss topics with others or teach them to improve understanding."
  const AuditorySuggestion3: string := "Use rhymes or songs to memorize key concepts."
  const ReadingSpeciality: string := "You prefer learning through written words, reading, and note-taking."
  const ReadingSuggestion1: string := "Read textbooks, write summaries, and take detailed notes."
  const ReadingSuggestion2: string := "Use lists, headings, and bullet points to structure your study material."
  const ReadingSuggestion3: string := "Rewrite key information multiple times for better retention."
  const KinestheticSpeciality: string := "You learn best through hands-on experiences and movement."
  const KinestheticSuggestion1: string := "Engage in experiments, role-playing, or physical activities while studying."
  const KinestheticSuggestion2: string := "Use real-life examples and practical applications to understand concepts."
  const KinestheticSuggestion3: string := "Take short breaks and move around while studying to maintain focus."

  /** `learningDetails`: a description and three numbered suggestions for
      each of the four types. */
  function LearningDetails(): (m: map<string, Details>)
    ensures m.Keys == KnownTypes()
  {
    map[
      Visual := Details(VisualSpeciality,
        Suggestions(VisualSuggestion1, VisualSuggestion2, VisualSuggestion3)),
      Auditory := Details(AuditorySpeciality,
        Suggestions(AuditorySuggestion1, AuditorySuggestion2, AuditorySuggestion3)),
      ReadingWriting := Details(ReadingSpeciality,
        Suggestions(ReadingSuggestion1, ReadingSuggestion2, ReadingSuggestion3)),
      Kinesthetic := Details(KinestheticSpeciality,
        Suggestions(KinestheticSuggestion1, KinestheticSuggestion2, KinestheticSuggestion3))
    ]
  }

  /** Every type's details carry the three suggestions numbered 1 to 3. */
  lemma DetailsHaveThreeSuggestions()
    ensures forall t :: t in LearningDetails() ==> LearningDetails()[t].suggestions.Keys == {"1", "2", "3"}
  {
    var m := LearningDetails();
    forall t | t in m
      ensures m[t].suggestions.Keys == {"1", "2", "3"}
    {
      assert t in KnownTypes();
    }
  }

  /* ---------- The request handler ---------- */

  /** A stored result: the id the database assigns, the submitted user id,
      the dominant type and its badge (absent for an unknown type). */
  datatype ResultRecord = ResultRecord(id: nat, userId: int, learningType: string, badgeUrl: Option<string>)

  /** The reply: the stored record spread out with the type's speciality and
      suggestions, or a status code with an error message. */
  datatype Response =
    | Reply(record: ResultRecord, speciality: string, suggestions: map<string, string>)
    | Error(status: nat, message: string)

  /** What one request does: the record it makes the database store, if
      any, and the response it sends. */
  datatype Handled = Handled(stored: Option<ResultRecord>, response: Response)

  const ErrorMessage: string := "Error calculating result"

  /** `calculateResult`. `answers` is the body's array, None when it is
      missing or not an array (so that `answers.forEach` throws). `created` is what
      `prisma.result.create` does: the id of the new record, or None when it
      throws. Every exception ends in the catch block's 500. */
  method CalculateResult(userId: int, answers: Option<seq<string>>, created: Option<nat>) returns (h: Handled)
    ensures answers.None? || answers == Some([]) ==> h == Handled(None, Error(500, ErrorMessage))
    ensures answers.Some? && answers.value != [] && created.None? ==>
      h == Handled(None, Error(500, ErrorMessage))
    ensures answers.Some? && answers.value != [] && created.Some? ==>
      var d := DominantType(answers.value).value;
      && h.stored == Some(ResultRecord(created.value, userId, d, BadgeUrl(d)))
      && (d in KnownTypes() ==>
            h.response == Reply(h.stored.value, LearningDetails()[d].speciality, LearningDetails()[d].suggestions))
      && (d !in KnownTypes() ==> h.response == Error(500, ErrorMessage))
    ensures h.response.Error? ==> h.response == Error(500, ErrorMessage)
    ensures h.response.Reply? ==> h.stored == Some(h.response.record)
  {
    if answers.None? {
      return Handled(None, Error(500, ErrorMessage));
    }
    var typeCount := Tally(answers.value);
    if typeCount.keys == [] {
      // reduce of an empty array with no initial value throws
      return Handled(None, Error(500, ErrorMessage));
    }
    var dominant := PickDominant(typeCount.keys, typeCount.values);
    if created.None? {
      return Handled(None, Error(500, ErrorMessage));
    }
    var record := ResultRecord(created.value, userId, dominant, BadgeUrl(dominant));
    var details := LearningDetails();
    if dominant !in details {
      // learningDetails[dominantType] is undefined: reading .speciality throws
      return Handled(Some(record), Error(500, ErrorMessage));
    }
    h := Handled(Some(record), Reply(record, details[dominant].speciality, details[dominant].suggestions));
  }
}
