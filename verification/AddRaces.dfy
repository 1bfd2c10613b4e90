/** Several `add_test_case` calls on one directory at once (src/admin/admin_problem.cpp:224-228). Each
    first scans for the next number and later writes its files; nothing keeps the calls apart. The
    inputs stand for the cases here. */
module AddRaces {
  import opened Common
  import opened RenameFaults

  /** The number a call has chosen, and how many writes there had been by then. */
  datatype Chosen = Chosen(next: nat, seen: nat)

  datatype State = State(inputs: Slots, calls: map<nat, Chosen>, writes: nat)

  datatype Event = Scan(t: nat) | Write(t: nat, input: string)

  predicate Enabled(s: State, e: Event) {
    match e
    case Scan(t) => t !in s.calls
    case Write(t, _) => t in s.calls
  }

  /** With the numbers 1 to n the highest number is the number of cases. */
  function Apply(s: State, e: Event): State
    requires Enabled(s, e)
  {
    match e
    case Scan(t) => s.(calls := s.calls[t := Chosen(|s.inputs| + 1, s.writes)])
    case Write(t, input) => State(s.inputs[s.calls[t].next := input], s.calls - {t}, s.writes + 1)
  }

  ghost predicate Run(s: State, es: seq<Event>, z: State)
    decreases |es|
  {
    if es == [] then s == z else Enabled(s, es[0]) && Run(Apply(s, es[0]), es[1..], z)
  }

  function Writes(es: seq<Event>): nat {
    if es == [] then 0 else (if es[0].Write? then 1 else 0) + Writes(es[1..])
  }

  /** Another call has written since this one scanned. */
  predicate Overtaken(s: State, e: Event) {
    e.Write? && e.t in s.calls && s.calls[e.t].seen < s.writes
  }

  ghost predicate NoneOvertaken(s: State, es: seq<Event>)
    decreases |es|
  {
    es != [] ==> Enabled(s, es[0]) && !Overtaken(s, es[0]) && NoneOvertaken(Apply(s, es[0]), es[1..])
  }

  /** As long as nothing is lost, a call has chosen as many numbers too low as there were writes since. */
  ghost predicate Inv(s: State) {
    && Numbered(s.inputs, |s.inputs|)
    && forall t | t in s.calls ::
         s.calls[t].seen <= s.writes && 1 <= s.calls[t].next
         && s.calls[t].next + s.writes == |s.inputs| + 1 + s.calls[t].seen
  }

  lemma StepKeepsInv(s: State, e: Event)
    requires Inv(s) && Enabled(s, e) && !Overtaken(s, e)
    ensures Inv(Apply(s, e)) && |Apply(s, e).inputs| == |s.inputs| + if e.Write? then 1 else 0
  {
    if e.Write? {
      NextExtends(s.inputs, |s.inputs|, e.input);
    }
  }

  lemma NextExtends(inputs: Slots, n: nat, input: string)
    requires Numbered(inputs, n) && |inputs| == n
    ensures Numbered(inputs[n + 1 := input], n + 1) && |inputs[n + 1 := input]| == n + 1
  {
    assert inputs[n + 1 := input].Keys == inputs.Keys + {n + 1};
  }

  lemma OvertakenOverwrites(s: State, e: Event)
    requires Inv(s) && Enabled(s, e) && Overtaken(s, e)
    ensures s.calls[e.t].next in s.inputs && |Apply(s, e).inputs| == |s.inputs|
  {
    assert Apply(s, e).inputs.Keys == s.inputs.Keys;
  }

  lemma {:induction false} GrowsAtMost(s: State, es: seq<Event>, z: State)
    requires Run(s, es, z)
    ensures |z.inputs| <= |s.inputs| + Writes(es)
    decreases |es|
  {
    if es != [] {
      var u := Apply(s, es[0]);
      if es[0].Write? {
        var n := s.calls[es[0].t].next;
        assert u.inputs.Keys == s.inputs.Keys + {n};
        Cardinality(u.inputs.Keys, s.inputs.Keys + {n});
      }
      GrowsAtMost(u, es[1..], z);
    }
  }

  lemma {:induction false} LosesExactlyWhen(s: State, es: seq<Event>, z: State)
    requires Inv(s) && Run(s, es, z)
    ensures |z.inputs| == |s.inputs| + Writes(es) <==> NoneOvertaken(s, es)
    decreases |es|
  {
    if es != [] {
      var u := Apply(s, es[0]);
      if Overtaken(s, es[0]) {
        OvertakenOverwrites(s, es[0]);
        GrowsAtMost(u, es[1..], z);
      } else {
        StepKeepsInv(s, es[0]);
        LosesExactlyWhen(u, es[1..], z);
      }
    }
  }

  /** However additions overlap, from a directory with the numbers 1 to n: every added case is still
      there at the end if and only if no call wrote between the scan and the write of another. */
  lemma AdditionsLoseExactlyWhen(inputs: Slots, n: nat, es: seq<Event>, z: State)
    requires Numbered(inputs, n) && Run(State(inputs, map[], 0), es, z)
    ensures |z.inputs| == n + Writes(es) <==> NoneOvertaken(State(inputs, map[], 0), es)
  {
    NumberedCount(inputs, n);
    LosesExactlyWhen(State(inputs, map[], 0), es, z);
  }

  lemma {:induction false} NumberedCount(inputs: Slots, n: nat)
    requires Numbered(inputs, n)
    ensures |inputs| == n
  {
    if n == 0 {
      assert inputs == map[];
    } else {
      var rest := inputs - {n};
      NumberedCount(rest, n - 1);
      assert inputs.Keys == rest.Keys + {n};
    }
  }
}
