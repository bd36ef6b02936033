// A key repeated within one object, found on the stream of a value's tokens
// with one frame for each open object or array (cmd/tamarackdb-init/dump.go).
module DuplicateKeys {
  import opened Lists

  // A JSON value. Numbers, booleans and null are all Plain here.
  datatype Json = Plain | Text(text: string) | Array(items: Items) | Object(members: Members)
  datatype Items = NoItem | Item(first: Json, items: Items)
  datatype Members = NoMember | Member(key: string, value: Json, members: Members)

  datatype Token = OpenObject | CloseObject | OpenArray | CloseArray | TextToken(text: string) | PlainToken

  function Tokens(j: Json): seq<Token> {
    match j
    case Plain => [PlainToken]
    case Text(s) => [TextToken(s)]
    case Array(items) => [OpenArray] + ItemTokens(items) + [CloseArray]
    case Object(members) => [OpenObject] + MemberTokens(members) + [CloseObject]
  }

  function ItemTokens(items: Items): seq<Token> {
    match items
    case NoItem => []
    case Item(first, rest) => Tokens(first) + ItemTokens(rest)
  }

  function MemberTokens(members: Members): seq<Token> {
    match members
    case NoMember => []
    case Member(key, value, rest) => [TextToken(key)] + Tokens(value) + MemberTokens(rest)
  }

  // ---- What is checked, said of the value itself.

  function KeysOf(members: Members): seq<string> {
    match members
    case NoMember => []
    case Member(key, _, rest) => [key] + KeysOf(rest)
  }

  // No object anywhere in the value repeats a key.
  ghost predicate NoRepeats(j: Json) {
    match j
    case Plain => true
    case Text(_) => true
    case Array(items) => NoItemRepeats(items)
    case Object(members) => Distinct(KeysOf(members)) && NoMemberRepeats(members)
  }

  ghost predicate NoItemRepeats(items: Items) {
    match items
    case NoItem => true
    case Item(first, rest) => NoRepeats(first) && NoItemRepeats(rest)
  }

  ghost predicate NoMemberRepeats(members: Members) {
    match members
    case NoMember => true
    case Member(_, value, rest) => NoRepeats(value) && NoMemberRepeats(rest)
  }

  // ---- The machine.

  datatype Frame = InArray | InObject(keys: set<string>, wantKey: bool)

  // Stuck is a close with nothing open, which no value's tokens lead to.
  datatype Verdict = Accepted | Duplicate | Stuck

  predicate WantsKey(stack: seq<Frame>) {
    stack != [] && stack[|stack| - 1].InObject? && stack[|stack| - 1].wantKey
  }

  // Once a value closes, an enclosing object waits for its next key.
  function AfterValue(stack: seq<Frame>): (r: seq<Frame>)
    ensures |r| == |stack|
  {
    if stack != [] && stack[|stack| - 1].InObject? then stack[|stack| - 1 := stack[|stack| - 1].(wantKey := true)]
    else stack
  }

  predicate Repeats(stack: seq<Frame>, t: Token) {
    WantsKey(stack) && t.TextToken? && t.text in stack[|stack| - 1].keys
  }

  predicate Pops(t: Token) { t.CloseObject? || t.CloseArray? }

  function Next(stack: seq<Frame>, t: Token): seq<Frame>
    requires !Repeats(stack, t) && (Pops(t) ==> stack != [])
  {
    if WantsKey(stack) && t.TextToken? then
      stack[|stack| - 1 := InObject(stack[|stack| - 1].keys + {t.text}, false)]
    else
      match t
      case OpenObject => stack + [InObject({}, true)]
      case OpenArray => stack + [InArray]
      case CloseObject => AfterValue(stack[..|stack| - 1])
      case CloseArray => AfterValue(stack[..|stack| - 1])
      case _ => AfterValue(stack)
  }

  function Run(stack: seq<Frame>, tokens: seq<Token>): Verdict
    decreases |tokens|
  {
    if tokens == [] then Accepted
    else if Repeats(stack, tokens[0]) then Duplicate
    else if Pops(tokens[0]) && stack == [] then Stuck
    else Run(Next(stack, tokens[0]), tokens[1..])
  }

  lemma RunNext(stack: seq<Frame>, tokens: seq<Token>, i: nat)
    requires i < |tokens|
    ensures Run(stack, tokens[i..]) ==
      if Repeats(stack, tokens[i]) then Duplicate
      else if Pops(tokens[i]) && stack == [] then Stuck
      else Run(Next(stack, tokens[i]), tokens[i + 1..])
  {
    assert tokens[i..][1..] == tokens[i + 1..];
  }

  // What the loop of CheckNoDuplicateKeys does with a token that is no key.
  method Advance(before: seq<Frame>, tok: Token) returns (stack: seq<Frame>)
    requires !(WantsKey(before) && tok.TextToken?) && (Pops(tok) ==> before != [])
    ensures stack == Next(before, tok)
  {
    stack := before;
    match tok {
      case OpenObject => return stack + [InObject({}, true)];
      case OpenArray => return stack + [InArray];
      case CloseObject => stack := stack[..|stack| - 1];
      case CloseArray => stack := stack[..|stack| - 1];
      case TextToken(_) =>
      case PlainToken =>
    }
    if |stack| > 0 && stack[|stack| - 1].InObject? {
      stack := stack[|stack| - 1 := stack[|stack| - 1].(wantKey := true)];
    }
  }

  // ---- The machine decides the definition.

  ghost function Then(ok: bool, stack: seq<Frame>, rest: seq<Token>): Verdict {
    if ok then Run(stack, rest) else Duplicate
  }

  lemma OneToken(stack: seq<Frame>, t: Token, rest: seq<Token>)
    ensures Run(stack, [t] + rest) ==
      if Repeats(stack, t) then Duplicate else if Pops(t) && stack == [] then Stuck else Run(Next(stack, t), rest)
  {
    assert ([t] + rest)[1..] == rest;
  }

  lemma Bracketed(open: Token, inside: seq<Token>, close: Token, rest: seq<Token>)
    ensures [open] + inside + [close] + rest == [open] + (inside + ([close] + rest))
  {
  }

  lemma RunOnArray(items: Items, stack: seq<Frame>, rest: seq<Token>)
    requires !WantsKey(stack)
    ensures Run(stack, Tokens(Array(items)) + rest) == Run(stack + [InArray], ItemTokens(items) + ([CloseArray] + rest))
  {
    var inner := ItemTokens(items) + ([CloseArray] + rest);
    Bracketed(OpenArray, ItemTokens(items), CloseArray, rest);
    OneToken(stack, OpenArray, inner);
  }

  lemma RunOnObject(members: Members, stack: seq<Frame>, rest: seq<Token>)
    requires !WantsKey(stack)
    ensures Run(stack, Tokens(Object(members)) + rest)
         == Run(stack + [InObject({}, true)], MemberTokens(members) + ([CloseObject] + rest))
  {
    var inner := MemberTokens(members) + ([CloseObject] + rest);
    Bracketed(OpenObject, MemberTokens(members), CloseObject, rest);
    OneToken(stack, OpenObject, inner);
  }

  // A frame pushed and popped again leaves the stack below as it was.
  lemma Popped(stack: seq<Frame>, f: Frame, t: Token, rest: seq<Token>)
    requires Pops(t)
    ensures Run(stack + [f], [t] + rest) == Run(AfterValue(stack), rest)
  {
    assert (stack + [f])[..|stack|] == stack;
    OneToken(stack + [f], t, rest);
  }

  lemma OneMore(key: string, later: seq<string>, keys: set<string>)
    ensures Elements([key] + later) !! keys && Distinct([key] + later)
       <==> key !in keys && Elements(later) !! keys + {key} && Distinct(later)
  {
    var all := [key] + later;
    assert Elements(all) == {key} + Elements(later);
    assert forall i :: 0 <= i < |later| ==> all[i + 1] == later[i];
    if Distinct(all) {
      forall i, j | 0 <= i < j < |later| ensures later[i] != later[j] {
        assert all[i + 1] != all[j + 1];
      }
      forall i | 0 <= i < |later| ensures later[i] != key {
        assert all[0] != all[i + 1];
      }
    }
  }

  // Whatever is open around it, and whatever follows, a value where a value
  // is due makes the machine refuse, or go on as after any value.
  lemma {:induction false} RunOnValue(j: Json, stack: seq<Frame>, rest: seq<Token>)
    requires !WantsKey(stack)
    ensures Run(stack, Tokens(j) + rest) == Then(NoRepeats(j), AfterValue(stack), rest)
    decreases j
  {
    match j {
      case Plain => OneToken(stack, PlainToken, rest);
      case Text(s) => OneToken(stack, TextToken(s), rest);
      case Array(items) =>
        RunOnItems(items, stack, rest);
        RunOnArray(items, stack, rest);
      case Object(members) =>
        RunOnMembers(members, {}, stack, rest);
        RunOnObject(members, stack, rest);
    }
  }

  lemma {:induction false} RunOnItems(items: Items, stack: seq<Frame>, rest: seq<Token>)
    ensures Run(stack + [InArray], ItemTokens(items) + ([CloseArray] + rest))
         == Then(NoItemRepeats(items), AfterValue(stack), rest)
    decreases items
  {
    match items {
      case NoItem =>
        assert ItemTokens(items) + ([CloseArray] + rest) == [CloseArray] + rest;
        Popped(stack, InArray, CloseArray, rest);
      case Item(first, later) =>
        var after := ItemTokens(later) + ([CloseArray] + rest);
        assert ItemTokens(items) + ([CloseArray] + rest) == Tokens(first) + after;
        RunOnValue(first, stack + [InArray], after);
        RunOnItems(later, stack, rest);
    }
  }

  lemma {:induction false} RunOnMembers(members: Members, keys: set<string>, stack: seq<Frame>, rest: seq<Token>)
    ensures Run(stack + [InObject(keys, true)], MemberTokens(members) + ([CloseObject] + rest))
         == Then(Elements(KeysOf(members)) !! keys && Distinct(KeysOf(members)) && NoMemberRepeats(members),
                 AfterValue(stack), rest)
    decreases members
  {
    match members {
      case NoMember =>
        assert MemberTokens(members) + ([CloseObject] + rest) == [CloseObject] + rest;
        Popped(stack, InObject(keys, true), CloseObject, rest);
      case Member(key, value, later) =>
        var after := MemberTokens(later) + ([CloseObject] + rest);
        assert MemberTokens(members) + ([CloseObject] + rest) == [TextToken(key)] + (Tokens(value) + after);
        OneToken(stack + [InObject(keys, true)], TextToken(key), Tokens(value) + after);
        OneMore(key, KeysOf(later), keys);
        if key !in keys {
          var read := stack + [InObject(keys + {key}, false)];
          assert Next(stack + [InObject(keys, true)], TextToken(key)) == read;
          RunOnValue(value, read, after);
          assert AfterValue(read) == stack + [InObject(keys + {key}, true)];
          RunOnMembers(later, keys + {key}, stack, rest);
        }
    }
  }

  // The loop of the source, on the tokens of any value.
  method CheckNoDuplicateKeys(tokens: seq<Token>, ghost value: Json) returns (ok: bool)
    requires tokens == Tokens(value)
    ensures ok <==> NoRepeats(value)
  {
    var stack: seq<Frame> := [];
    RunOnValue(value, stack, []);
    assert tokens + [] == tokens;
    var i := 0;
    while i < |tokens|
      invariant 0 <= i <= |tokens|
      invariant Run(stack, tokens[i..]) == if NoRepeats(value) then Accepted else Duplicate
    {
      var tok, n := tokens[i], |stack|;
      RunNext(stack, tokens, i);
      i := i + 1;
      if n > 0 && stack[n - 1].InObject? && stack[n - 1].wantKey && tok.TextToken? {
        if tok.text in stack[n - 1].keys {
          return false;
        }
        stack := stack[n - 1 := InObject(stack[n - 1].keys + {tok.text}, false)];
        continue;
      }
      stack := Advance(stack, tok);
    }
    ok := true;
  }
}
