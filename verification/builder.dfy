/** The builder's own verbs (`stop`, `require`, `request`) as nested programs, and the
    object that emits actions for them. */
module Builder {
  import opened Basics
  import opened Workflow

  function TransferPath(): string { "/clipboard/text" }

  /** What a request carries: nothing, the text to send, or, for pairing, the ticket. */
  datatype Body = NoBody | TextBody(payload: Ref) | TicketBody(ticket: Ref)

  function StopWith(l: Label, message: Message, about: Option<Ref>, rest: Prog): Prog {
    Cons(Act(Sub(l, Notice), Notification(message, about)), Cons(Stmt.Stop(Sub(l, Halt)), rest))
  }

  /** A group without else branch that stops. */
  function StopIf(l: Label, subject: Ref, cond: Condition, stopLabel: Label, message: Message, rest: Prog): Prog {
    Cons(If(l, subject, cond, StopWith(stopLabel, message, None, Nil), false, Nil), rest)
  }

  function Require(l: Label, v: Ref, pattern: Pattern, message: Message, rest: Prog): Prog {
    Cons(Act(Sub(l, Match), MatchText(v, pattern)),
         StopIf(l, Out(Sub(l, Match)), NoValue, l, message, rest))
  }

  /** The authorization header of a request; a pairing request has none. */
  function AuthOf(token: Ref, body: Body): Option<seq<Piece>> {
    if body.TicketBody? then None else Some([Lit("Bearer "), Tok(token)])
  }

  function JsonOf(body: Body): seq<(Key, seq<Piece>)> {
    match body
    case NoBody => []
    case TextBody(p) => [(KeyText, [Tok(p)])]
    case TicketBody(t) => [(KeyVersion, [Lit("1")]), (KeyTicket, [Tok(t)])]
  }

  /** The download action of a request. */
  function DownloadOp(l: Label, token: Ref, body: Body): Op {
    Download(Out(Sub(l, Url)), !body.NoBody?, AuthOf(token, body), JsonOf(body))
  }

  function ErrorBranchOf(l: Label): Prog {
    Cons(Act(Sub(l, ErrorField), FieldOf(Out(Sub(l, Response)), KeyErrorMessage)),
      Cons(If(Sub(l, ErrorBranch), Out(Sub(l, ErrorField)), HasValue,
              StopWith(Sub(l, ApiError), ServerSays, Some(Out(Sub(l, ErrorField))), Nil), true,
              StopWith(Sub(l, InvalidResponse), BadReply, None, Nil)),
        Nil))
  }

  /** The part of a request after its download action. */
  function CheckReply(l: Label, rest: Prog): Prog {
    Cons(Act(Sub(l, Response), DetectDictionary(Out(Sub(l, Fetch)))),
      Cons(Act(Sub(l, OkField), FieldOf(Out(Sub(l, Response)), KeyOk)),
        Cons(If(Sub(l, OkBranch), Out(Sub(l, OkField)), IsTrue,
                Cons(Act(Sub(l, Continue), Nothing), Nil), true, ErrorBranchOf(l)),
          rest)))
  }

  function Request(l: Label, base: Ref, token: Ref, path: string, body: Body, rest: Prog): Prog {
    Cons(Act(Sub(l, Address), GetText([Tok(base), Lit(path)])),
      Cons(Act(Sub(l, Url), MakeUrl(Out(Sub(l, Address)))),
        Cons(Act(Sub(l, Fetch), DownloadOp(l, token, body)),
          CheckReply(l, rest))))
  }

  // ----- the object -----

  class ActionList {
    var actions: seq<Action>

    constructor ()
      ensures actions == []
    {
      actions := [];
    }

    method Add(a: Action)
      modifies this
      ensures actions == old(actions) + [a]
    {
      actions := actions + [a];
    }

    /** Emits a nested program, depth first, as the builder's straight-line calls do. */
    method Emit(p: Prog)
      modifies this
      ensures actions == old(actions) + Flatten(p)
      decreases p
    {
      match p
      case Nil =>
      case Cons(s, rest) =>
        EmitStmt(s);
        Emit(rest);
    }

    method EmitStmt(s: Stmt)
      modifies this
      ensures actions == old(actions) + FlattenStmt(s)
      decreases s
    {
      match s
      case Act(id, op) => Add(Do(id, op));
      case Stop(id) => Add(Exit(id));
      case If(g, subject, cond, thn, hasElse, els) =>
        Add(Begin(g, subject, cond));
        Emit(thn);
        if hasElse {
          Add(Otherwise(g));
          Emit(els);
        }
        Add(Close(g));
    }

    method StopHere(l: Label, message: Message, about: Option<Ref>)
      modifies this
      ensures actions == old(actions) + Flatten(StopWith(l, message, about, Nil))
    {
      Add(Do(Sub(l, Notice), Notification(message, about)));
      Add(Exit(Sub(l, Halt)));
      assert Flatten(Cons(Stmt.Stop(Sub(l, Halt)), Nil)) == [Exit(Sub(l, Halt))] + Flatten(Nil);
    }

    method RequireMatch(l: Label, v: Ref, pattern: Pattern, message: Message)
      modifies this
      ensures actions == old(actions) + Flatten(Require(l, v, pattern, message, Nil))
    {
      ghost var was := actions;
      Add(Do(Sub(l, Match), MatchText(v, pattern)));
      Add(Begin(l, Out(Sub(l, Match)), NoValue));
      StopHere(l, message, None);
      Add(Close(l));
      var stop := StopWith(l, message, None, Nil);
      var branch := If(l, Out(Sub(l, Match)), NoValue, stop, false, Nil);
      assert FlattenStmt(branch) == [Begin(l, Out(Sub(l, Match)), NoValue)] + Flatten(stop) + [Close(l)];
      assert Flatten(Cons(branch, Nil)) == FlattenStmt(branch) + Flatten(Nil);
      assert Flatten(Require(l, v, pattern, message, Nil))
          == [Do(Sub(l, Match), MatchText(v, pattern))] + Flatten(Cons(branch, Nil));
      assert actions == was + Flatten(Require(l, v, pattern, message, Nil));
    }

    /** The plain builder's request, for no body or a text body. */
    method RequestPlain(l: Label, base: Ref, token: Ref, path: string, body: Body)
      modifies this
      ensures actions == old(actions) + Flatten(Request(l, base, token, path, body, Nil))
    {
      ghost var was := actions;
      Add(Do(Sub(l, Address), GetText([Tok(base), Lit(path)])));
      Add(Do(Sub(l, Url), MakeUrl(Out(Sub(l, Address)))));
      Add(Do(Sub(l, Fetch), DownloadOp(l, token, body)));
      Emit(CheckReply(l, Nil));
      RequestLayout(l, base, token, path, body, Nil);
      assert actions == was + Flatten(Request(l, base, token, path, body, Nil));
    }

    /** The simple builder's pairing request: the plain one with the ticket as its text,
        then the download action found by its identifier and patched in place. */
    method RequestPairing(l: Label, base: Ref, token: Ref, path: string, ticket: Ref)
      requires forall i | 0 <= i < |actions| :: IdOf(actions[i]) != Sub(l, Fetch)
      modifies this
      ensures actions == old(actions) + Flatten(Request(l, base, token, path, TicketBody(ticket), Nil))
    {
      ghost var was := actions;
      RequestPlain(l, base, token, path, TextBody(ticket));
      RequestLayout(l, base, token, path, TextBody(ticket), Nil);
      RequestLayout(l, base, token, path, TicketBody(ticket), Nil);
      ghost var whole := actions;
      var i := 0;
      while IdOf(actions[i]) != Sub(l, Fetch)
        invariant 0 <= i <= |was| + 2
        invariant actions == whole
        invariant forall j | 0 <= j < i :: IdOf(actions[j]) != Sub(l, Fetch)
        decreases |was| + 2 - i
      {
        assert IdOf(whole[|was| + 2]) == Sub(l, Fetch);
        i := i + 1;
      }
      assert i == |was| + 2 by {
        assert forall j | 0 <= j < |was| :: whole[j] == was[j];
        assert whole[|was|] == Do(Sub(l, Address), GetText([Tok(base), Lit(path)]));
        assert whole[|was| + 1] == Do(Sub(l, Url), MakeUrl(Out(Sub(l, Address))));
      }
      actions := actions[i := Do(Sub(l, Fetch), DownloadOp(l, token, TicketBody(ticket)))];
      assert actions == was + Flatten(Request(l, base, token, path, TicketBody(ticket), Nil));
    }
  }

  lemma RequestLayout(l: Label, base: Ref, token: Ref, path: string, body: Body, rest: Prog)
    ensures Flatten(Request(l, base, token, path, body, rest)) ==
            [Do(Sub(l, Address), GetText([Tok(base), Lit(path)])),
             Do(Sub(l, Url), MakeUrl(Out(Sub(l, Address)))),
             Do(Sub(l, Fetch), DownloadOp(l, token, body))]
            + Flatten(CheckReply(l, rest))
  {
    var download := Cons(Act(Sub(l, Fetch), DownloadOp(l, token, body)), CheckReply(l, rest));
    var url := Cons(Act(Sub(l, Url), MakeUrl(Out(Sub(l, Address)))), download);
    assert Flatten(download) == [Do(Sub(l, Fetch), DownloadOp(l, token, body))] + Flatten(CheckReply(l, rest));
    assert Flatten(url) == [Do(Sub(l, Url), MakeUrl(Out(Sub(l, Address))))] + Flatten(download);
  }
}
