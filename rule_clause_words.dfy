/** A written condition as its words: the text of a `Disjunction` whose
    keywords have one space before them is its words joined by single
    spaces, where each further space after a keyword counts as an empty word. */
module RuleClauseWords {
  import opened Text
  import opened RuleAst
  import opened RuleClauseText

  function Blanks(n: nat): seq<string> { seq(n, _ => "") }

  function SpaceRun(n: nat): string { seq(n, _ => ' ') }

  /** The keyword, then one empty word per space after the first. */
  function JointWords<T>(j: Joint<T>): seq<string>
  {
    [j.word] + Blanks(if |j.after| > 0 then |j.after| - 1 else 0)
  }

  function AndWords(js: seq<Joint<Expression>>): seq<string>
  {
    if js == [] then [] else JointWords(js[0]) + [TermText(js[0].item)] + AndWords(js[1..])
  }

  function ConjunctionWords(c: Conjunction): seq<string>
  {
    [TermText(c.first)] + AndWords(c.joints)
  }

  function OrWords(js: seq<Joint<Conjunction>>): seq<string>
  {
    if js == [] then [] else JointWords(js[0]) + ConjunctionWords(js[0].item) + OrWords(js[1..])
  }

  function DisjunctionWords(d: Disjunction): seq<string>
  {
    ConjunctionWords(d.first) + OrWords(d.joints)
  }

  /** One space before every keyword. */
  predicate SingleLead<T>(js: seq<Joint<T>>) { forall i | 0 <= i < |js| :: js[i].before == " " }

  predicate SingleLeads(d: Disjunction)
  {
    SingleLead(d.first.joints) && SingleLead(d.joints) &&
    forall i | 0 <= i < |d.joints| :: SingleLead(d.joints[i].item.joints)
  }

  lemma JoinCons(w: string, ws: seq<string>, sep: string)
    requires ws != []
    ensures Join([w] + ws, sep) == w + sep + Join(ws, sep)
  {
    assert ([w] + ws)[1..] == ws;
  }

  lemma {:induction false} JoinAppend(a: seq<string>, b: seq<string>, sep: string)
    requires a != [] && b != []
    ensures Join(a + b, sep) == Join(a, sep) + sep + Join(b, sep)
    decreases |a|
  {
    assert a + b == [a[0]] + (a[1..] + b);
    JoinCons(a[0], a[1..] + b, sep);
    if |a| == 1 {
      assert a[1..] + b == b;
    } else {
      JoinAppend(a[1..], b, sep);
      assert a == [a[0]] + a[1..];
      JoinCons(a[0], a[1..], sep);
    }
  }

  lemma {:induction false} BlanksJoin(k: nat, ws: seq<string>)
    requires ws != []
    ensures Join(Blanks(k) + ws, " ") == SpaceRun(k) + Join(ws, " ")
    decreases k
  {
    if k == 0 {
      assert Blanks(k) + ws == ws;
      assert SpaceRun(k) + Join(ws, " ") == Join(ws, " ");
    } else {
      assert Blanks(k) + ws == [""] + (Blanks(k - 1) + ws);
      JoinCons("", Blanks(k - 1) + ws, " ");
      BlanksJoin(k - 1, ws);
      assert SpaceRun(k) == " " + SpaceRun(k - 1);
    }
  }

  /** A run of spaces is its length in spaces. */
  lemma GapRun(g: string)
    requires Gap(g)
    ensures g == " " + SpaceRun(|g| - 1)
  {
  }

  /** `word` and its gap, then the words `ws`, read as one run of words. */
  lemma JointJoin<T>(j: Joint<T>, ws: seq<string>)
    requires Gap(j.after) && ws != []
    ensures Join(JointWords(j) + ws, " ") == j.word + (j.after + Join(ws, " "))
  {
    var k := |j.after| - 1;
    assert JointWords(j) + ws == [j.word] + (Blanks(k) + ws);
    JoinCons(j.word, Blanks(k) + ws, " ");
    BlanksJoin(k, ws);
    GapRun(j.after);
  }

  /** A term and the joints after it read as the words of both. */
  lemma TermThenWords(t: string, ws: seq<string>, tail: string)
    requires ws == [] ==> tail == []
    requires ws != [] ==> tail == " " + Join(ws, " ")
    ensures Join([t] + ws, " ") == t + tail
  {
    if ws == [] {
      assert [t] + ws == [t];
      assert t + tail == t;
    } else {
      JoinCons(t, ws, " ");
    }
  }

  lemma {:induction false} AndTailWords(js: seq<Joint<Expression>>)
    requires SingleLead(js) && forall i | 0 <= i < |js| :: Gap(js[i].after)
    ensures js != [] ==> AndTail(js) == " " + Join(AndWords(js), " ")
    ensures js == [] ==> AndTail(js) == [] && AndWords(js) == []
    decreases |js|
  {
    if js != [] {
      var j := js[0];
      var rest := js[1..];
      assert forall i | 0 <= i < |rest| :: rest[i] == js[i + 1];
      AndTailWords(rest);
      var t := TermText(j.item);
      TermThenWords(t, AndWords(rest), AndTail(rest));
      assert AndWords(js) == JointWords(j) + ([t] + AndWords(rest));
      JointJoin(j, [t] + AndWords(rest));
    }
  }

  lemma ConjunctionGaps(c: Conjunction)
    requires ConjunctionOk(c)
    ensures forall i | 0 <= i < |c.joints| :: Gap(c.joints[i].after)
  {
    forall i | 0 <= i < |c.joints| ensures Gap(c.joints[i].after) {
      assert AndJointOk(c.joints[i]);
    }
  }

  lemma ConjunctionTextWords(c: Conjunction)
    requires SingleLead(c.joints) && forall i | 0 <= i < |c.joints| :: Gap(c.joints[i].after)
    ensures ConjunctionText(c) == Join(ConjunctionWords(c), " ")
  {
    AndTailWords(c.joints);
    TermThenWords(TermText(c.first), AndWords(c.joints), AndTail(c.joints));
  }

  /** The words `cw`, then a tail that reads as the words `ws`. */
  lemma JoinThen(cw: seq<string>, ws: seq<string>, tail: string)
    requires cw != []
    requires ws == [] ==> tail == []
    requires ws != [] ==> tail == " " + Join(ws, " ")
    ensures Join(cw, " ") + tail == Join(cw + ws, " ")
  {
    if ws == [] {
      assert cw + ws == cw;
      assert Join(cw, " ") + tail == Join(cw, " ");
    } else {
      JoinAppend(cw, ws, " ");
    }
  }

  /** An `OR`, its conjunction and what follows, read as words. */
  lemma OrJointWords(j: Joint<Conjunction>, tail: string, ws: seq<string>)
    requires Gap(j.after) && ConjunctionText(j.item) == Join(ConjunctionWords(j.item), " ")
    requires ws == [] ==> tail == []
    requires ws != [] ==> tail == " " + Join(ws, " ")
    ensures j.word + (j.after + (ConjunctionText(j.item) + tail)) ==
      Join(JointWords(j) + ConjunctionWords(j.item) + ws, " ")
  {
    var cw := ConjunctionWords(j.item);
    JoinThen(cw, ws, tail);
    assert JointWords(j) + cw + ws == JointWords(j) + (cw + ws);
    JointJoin(j, cw + ws);
  }

  lemma {:induction false} OrTailWords(js: seq<Joint<Conjunction>>)
    requires SingleLead(js) && OrJoints(js)
    requires forall i | 0 <= i < |js| :: SingleLead(js[i].item.joints)
    ensures js != [] ==> OrTail(js) == " " + Join(OrWords(js), " ")
    ensures js == [] ==> OrTail(js) == [] && OrWords(js) == []
    decreases |js|
  {
    if js != [] {
      var rest := js[1..];
      OrJointsTail(js);
      assert forall i | 0 <= i < |rest| :: rest[i] == js[i + 1];
      OrTailWords(rest);
      ConjunctionGaps(js[0].item);
      ConjunctionTextWords(js[0].item);
      OrJointWords(js[0], OrTail(rest), OrWords(rest));
    }
  }

  /** A written disjunction with one space before each keyword reads as its
      words joined by single spaces. */
  lemma DisjunctionTextWords(d: Disjunction)
    requires DisjunctionOk(d) && SingleLeads(d)
    ensures DisjunctionText(d) == Join(DisjunctionWords(d), " ")
  {
    ConjunctionGaps(d.first);
    ConjunctionTextWords(d.first);
    OrTailWords(d.joints);
    JoinThen(ConjunctionWords(d.first), OrWords(d.joints), OrTail(d.joints));
  }
}
