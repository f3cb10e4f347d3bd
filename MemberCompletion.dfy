/** The source completer of member entry: completing a class appends its
    environment to the queue of half-completed classes, and the outermost
    completion then enters the members of every queued class, first in
    first out, including the classes completed meanwhile.  What the
    attribution of a class's base clauses and of its members completes in
    turn is given as an oracle, and so is where attribution is broken off
    by Attr.BreakAttr. */
module MemberCompletion {
  type ClassId = nat

  class Completer {
    /** The classes that completing a class completes in turn: its owner,
        then what attributing its supertype and interfaces reaches. */
    const baseTriggers: map<ClassId, seq<ClassId>>
    /** The classes that entering a class's members completes. */
    const memberTriggers: map<ClassId, seq<ClassId>>
    /** The classes whose base attribution throws Attr.BreakAttr. */
    const breaks: set<ClassId>
    var completionEnabled: bool
    var isFirst: bool
    /** The environments of the half-completed classes, in order. */
    var halfcompleted: seq<ClassId>
    /** The classes whose completer is installed. */
    var completer: set<ClassId>
    /** The classes flagged UNATTRIBUTED. */
    var unattributed: set<ClassId>
    /** The classes whose members were entered by finish, in order. */
    var finished: seq<ClassId>
    /** Every class ever appended to the queue, in order. */
    ghost var appended: seq<ClassId>

    /** Outside a completion the queue is empty. */
    ghost predicate Valid()
      reads this`isFirst, this`halfcompleted
    {
      isFirst ==> halfcompleted == []
    }

    /** A completer for the classes of `classes`, with nothing completed. */
    constructor(classes: set<ClassId>, base: map<ClassId, seq<ClassId>>, members: map<ClassId, seq<ClassId>>,
                broken: set<ClassId>)
      ensures Valid() && completionEnabled && isFirst
      ensures baseTriggers == base && memberTriggers == members && breaks == broken
      ensures completer == classes && halfcompleted == [] && unattributed == {} && finished == [] && appended == []
    {
      baseTriggers := base;
      memberTriggers := members;
      breaks := broken;
      completionEnabled := true;
      isFirst := true;
      halfcompleted := [];
      completer := classes;
      unattributed := {};
      finished := [];
      appended := [];
    }

    /** Symbol.complete (Symbol.java is not part of this model): a class
        whose completer is installed has it removed and run; otherwise
        nothing happens.  Each completion uses up one installed completer
        and queues one class. */
    method CompleteSymbol(d: ClassId) returns (broke: bool)
      requires Valid()
      modifies this
      decreases |completer|, 1
      ensures Valid()
      ensures completionEnabled == old(completionEnabled)
      ensures |completer| + |appended| == |old(completer)| + |old(appended)|
      ensures old(appended) <= appended && old(finished) <= finished && old(unattributed) <= unattributed
      ensures d !in old(completer) || !completionEnabled ==>
        !broke && completer == old(completer) && isFirst == old(isFirst) && halfcompleted == old(halfcompleted)
        && finished == old(finished) && appended == old(appended) && unattributed == old(unattributed)
      ensures broke ==> halfcompleted == [] && isFirst
      ensures !broke && !old(isFirst) ==>
        !isFirst && halfcompleted == old(halfcompleted) + appended[|old(appended)|..] && finished == old(finished)
      ensures !broke && old(isFirst) ==> isFirst && halfcompleted == [] && finished == old(finished) + appended[|old(appended)|..]
    {
      broke := false;
      if d in completer {
        completer := completer - {d};
        broke := Complete(d);
        if !completionEnabled {
          assert completer == old(completer);
        }
      }
    }

    /** complete: with completion switched off the completer is installed
        again and nothing else happens.  Otherwise the class is queued and
        flagged UNATTRIBUTED, and the classes its base clauses reach are
        completed; a BreakAttr empties the queue.  The outermost completion
        then enters the members of the queued classes in the order they
        were queued, and leaves `isFirst` set. */
    method Complete(c: ClassId) returns (broke: bool)
      requires Valid() && c !in completer
      modifies this
      decreases |completer|, 5
      ensures Valid()
      ensures completionEnabled == old(completionEnabled)
      ensures old(appended) <= appended && old(finished) <= finished && old(unattributed) <= unattributed
      ensures !completionEnabled ==>
        !broke && completer == old(completer) + {c} && isFirst == old(isFirst) && halfcompleted == old(halfcompleted)
        && finished == old(finished) && appended == old(appended) && unattributed == old(unattributed)
      ensures completionEnabled ==>
        |completer| + |appended| == |old(completer)| + |old(appended)| + 1
        && |appended| > |old(appended)| && appended[|old(appended)|] == c && c in unattributed
      ensures broke ==> halfcompleted == [] && isFirst
      ensures !broke && !old(isFirst) ==>
        !isFirst && halfcompleted == old(halfcompleted) + appended[|old(appended)|..] && finished == old(finished)
      ensures !broke && old(isFirst) ==> isFirst && halfcompleted == [] && finished == old(finished) + appended[|old(appended)|..]
    {
      if !completionEnabled {
        completer := completer + {c};
        return false;
      }
      var wasFirst := isFirst;
      isFirst := false;
      halfcompleted := halfcompleted + [c];
      appended := appended + [c];
      unattributed := unattributed + {c};
      ghost var a1 := appended;
      broke := CompleteAll(if c in baseTriggers then baseTriggers[c] else []);
      AppendedSplit(old(appended), a1, appended);
      if !broke && c in breaks {
        broke := true;
      }
      if broke {
        halfcompleted := [];
        isFirst := true;
        return;
      }
      if wasFirst {
        ghost var a2 := appended;
        broke := Drain();
        AppendedSplit(old(appended), a2, appended);
        isFirst := true;
        if !broke {
          assert finished == old(finished) + appended[|old(appended)|..];
        }
      }
    }

    /** The classes are completed in order until one breaks attribution
        off. */
    method CompleteAll(ds: seq<ClassId>) returns (broke: bool)
      requires !isFirst
      modifies this
      decreases |completer|, 2
      ensures completionEnabled == old(completionEnabled)
      ensures |completer| + |appended| == |old(completer)| + |old(appended)|
      ensures old(appended) <= appended && old(finished) <= finished && old(unattributed) <= unattributed
      ensures broke ==> halfcompleted == [] && isFirst
      ensures !broke ==> !isFirst && halfcompleted == old(halfcompleted) + appended[|old(appended)|..] && finished == old(finished)
    {
      broke := false;
      var i := 0;
      while i < |ds|
        invariant 0 <= i <= |ds| && !isFirst
        invariant completionEnabled == old(completionEnabled)
        invariant |completer| + |appended| == |old(completer)| + |old(appended)|
        invariant old(appended) <= appended && old(finished) <= finished && old(unattributed) <= unattributed
        invariant halfcompleted == old(halfcompleted) + appended[|old(appended)|..] && finished == old(finished)
      {
        ghost var a1 := appended;
        broke := CompleteSymbol(ds[i]);
        AppendedSplit(old(appended), a1, appended);
        if broke {
          return;
        }
        i := i + 1;
      }
    }

    /** The loop of the outermost completion: the head of the queue is
        taken off and its members are entered, until the queue is empty. */
    method Drain() returns (broke: bool)
      requires !isFirst && completionEnabled
      modifies this
      decreases |completer|, 4
      ensures completionEnabled
      ensures |completer| + |appended| == |old(completer)| + |old(appended)|
      ensures old(appended) <= appended && old(finished) <= finished && old(unattributed) <= unattributed
      ensures broke ==> halfcompleted == [] && isFirst
      ensures !broke ==> !isFirst && halfcompleted == [] && finished == old(finished) + old(halfcompleted) + appended[|old(appended)|..]
    {
      broke := false;
      while |halfcompleted| > 0
        invariant !isFirst && completionEnabled
        invariant |completer| + |appended| == |old(completer)| + |old(appended)|
        invariant old(appended) <= appended && old(finished) <= finished && old(unattributed) <= unattributed
        invariant finished + halfcompleted == old(finished) + old(halfcompleted) + appended[|old(appended)|..]
        decreases |completer| + |halfcompleted|
      {
        var e := halfcompleted[0];
        ghost var f0, q0 := finished, halfcompleted;
        assert q0 == [e] + q0[1..];
        halfcompleted := halfcompleted[1..];
        ghost var a1 := appended;
        broke := Finish(e);
        AppendedSplit(old(appended), a1, appended);
        if broke {
          return;
        }
        calc {
          finished + halfcompleted;
          (f0 + [e]) + (q0[1..] + appended[|a1|..]);
          (f0 + q0) + appended[|a1|..];
          old(finished) + old(halfcompleted) + a1[|old(appended)|..] + appended[|a1|..];
          old(finished) + old(halfcompleted) + appended[|old(appended)|..];
        }
      }
    }

    /** finish: the members of the class are entered, completing the
        classes they reach. */
    method Finish(e: ClassId) returns (broke: bool)
      requires !isFirst && completionEnabled
      modifies this
      decreases |completer|, 3
      ensures completionEnabled
      ensures |completer| + |appended| == |old(completer)| + |old(appended)|
      ensures old(appended) <= appended && old(finished) + [e] <= finished && old(unattributed) <= unattributed
      ensures broke ==> halfcompleted == [] && isFirst
      ensures !broke ==> !isFirst && halfcompleted == old(halfcompleted) + appended[|old(appended)|..] && finished == old(finished) + [e]
    {
      finished := finished + [e];
      broke := CompleteAll(if e in memberTriggers then memberTriggers[e] else []);
    }

    /** attribImportType: completion is switched off while the imported
        type is attributed, so the classes attribution reaches keep their
        completers for later; it is switched on again afterwards and
        nothing else has changed. */
    method AttribImportType(requested: seq<ClassId>)
      requires Valid() && completionEnabled
      modifies this
      ensures Valid() && completionEnabled
      ensures completer == old(completer) && isFirst == old(isFirst) && halfcompleted == old(halfcompleted)
      ensures finished == old(finished) && appended == old(appended) && unattributed == old(unattributed)
    {
      completionEnabled := false;
      var i := 0;
      while i < |requested|
        invariant 0 <= i <= |requested| && Valid() && !completionEnabled
        invariant completer == old(completer) && isFirst == old(isFirst) && halfcompleted == old(halfcompleted)
        invariant finished == old(finished) && appended == old(appended) && unattributed == old(unattributed)
      {
        var _ := CompleteSymbol(requested[i]);
        i := i + 1;
      }
      completionEnabled := true;
    }
  }

  /** What was appended since `a` is what was appended up to `b` and after
      it. */
  lemma AppendedSplit(a: seq<ClassId>, b: seq<ClassId>, c: seq<ClassId>)
    requires a <= b && b <= c
    ensures a <= c && c[|a|..] == b[|a|..] + c[|b|..]
  {
    assert b == c[..|b|];
  }
}
