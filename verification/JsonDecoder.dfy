// The token interface of the Go decoder: which separator may come next is kept in a
// state, and opening a container puts the state on a stack.
module JsonDecoder {
  import opened Collections
  import opened JsonLex
  import opened JsonDoc

  datatype State =
    | Top | ArrayStart | ArrayValue | ArrayComma
    | ObjectStart | ObjectKey | ObjectColon | ObjectValue | ObjectComma

  datatype Got = Tok(token: Token) | Eof | Fault

  /** The states in which a value may come, at once or behind its separator. */
  predicate ValuePlace(s: State) {
    s.Top? || s.ArrayStart? || s.ArrayComma? || s.ObjectColon?
  }

  predicate ValueAllowed(s: State) {
    s.Top? || s.ArrayStart? || s.ArrayValue? || s.ObjectValue?
  }

  /** The state behind a value. */
  function ValueEnd(s: State): State {
    match s
    case ArrayStart => ArrayComma
    case ArrayValue => ArrayComma
    case ObjectValue => ObjectComma
    case _ => s
  }

  /** The state at a value, its separator consumed. */
  function Inner(s: State): State {
    match s
    case ArrayComma => ArrayValue
    case ObjectColon => ObjectValue
    case _ => s
  }

  /** The tokens of the value that must come next. */
  function Ready(s: State, ts: seq<Token>): (r: seq<Token>)
    requires ValuePlace(s)
  {
    match s
    case ArrayComma => After(ts, Comma)
    case ObjectColon => After(ts, Colon)
    case _ => ts
  }

  predicate ValueToken(t: Token) {
    LeafToken(t) || t == LBracket || t == LBrace
  }

  datatype Place = Place(rest: seq<Token>, state: State, stack: seq<State>)

  function Enter(p: Place, inside: State): Place
    requires p.rest != []
  {
    Place(p.rest[1..], inside, p.stack + [p.state])
  }

  function Leave(p: Place): Place
    requires p.rest != [] && p.stack != []
  {
    Place(p.rest[1..], ValueEnd(p.stack[|p.stack| - 1]), p.stack[..|p.stack| - 1])
  }

  lemma {:induction false} LeaveEntered(rest: seq<Token>, close: Token, s: State, stack: seq<State>, outer: State)
    ensures Leave(Place([close] + rest, s, stack + [outer])) == Place(rest, ValueEnd(outer), stack)
  {
    assert ([close] + rest)[1..] == rest;
    assert (stack + [outer])[..|stack|] == stack;
  }

  /** What Token does. Behind a separator it looks again. */
  function Next(p: Place): (Got, Place)
    decreases |p.rest|
  {
    if p.rest == [] then (Eof, p)
    else
      var t := p.rest[0];
      match t
      case LBracket => if ValueAllowed(p.state) then (Tok(t), Enter(p, ArrayStart)) else (Fault, p)
      case LBrace => if ValueAllowed(p.state) then (Tok(t), Enter(p, ObjectStart)) else (Fault, p)
      case RBracket =>
        if p.state in {ArrayStart, ArrayComma} && p.stack != [] then (Tok(t), Leave(p)) else (Fault, p)
      case RBrace =>
        if p.state in {ObjectStart, ObjectComma} && p.stack != [] then (Tok(t), Leave(p)) else (Fault, p)
      case Colon =>
        if p.state == ObjectColon then Next(p.(rest := p.rest[1..], state := ObjectValue)) else (Fault, p)
      case Comma =>
        if p.state == ArrayComma then Next(p.(rest := p.rest[1..], state := ArrayValue))
        else if p.state == ObjectComma then Next(p.(rest := p.rest[1..], state := ObjectKey))
        else (Fault, p)
      case Bad => (Fault, p)
      case _ =>
        if t.Str? && p.state in {ObjectStart, ObjectKey} then (Tok(t), p.(rest := p.rest[1..], state := ObjectColon))
        else if ValueAllowed(p.state) then (Tok(t), p.(rest := p.rest[1..], state := ValueEnd(p.state)))
        else (Fault, p)
  }

  /** Where a value may come, the next token is that of the value or not one of a value. */
  lemma {:induction false} NextValue(p: Place)
    requires ValuePlace(p.state)
    ensures var (got, q) := Next(p); var ready := Ready(p.state, p.rest);
      if ready == [] || !ValueToken(ready[0]) then !got.Tok? || !ValueToken(got.token)
      else
        && got == Tok(ready[0])
        && q == if LeafToken(ready[0]) then Place(ready[1..], ValueEnd(Inner(p.state)), p.stack)
                else Place(ready[1..], if ready[0] == LBracket then ArrayStart else ObjectStart,
                           p.stack + [Inner(p.state)])
  {
    if p.rest != [] && (p.rest[0] == Comma || p.rest[0] == Colon) {
      var s := if p.rest[0] == Comma then ArrayValue else ObjectValue;
      NextBehind(p.(rest := p.rest[1..], state := s));
    }
  }

  lemma {:induction false} NextBehind(p: Place)
    requires p.state in {ArrayValue, ObjectValue}
    ensures p.rest == [] || !ValueToken(p.rest[0]) ==> !Next(p).0.Tok?
  {
  }

  lemma {:induction false} NextKey(p: Place)
    requires p.state in {ObjectStart, ObjectComma} && MoreIn(p.rest)
    ensures var (got, q) := Next(p); var keyed := if p.state == ObjectStart then p.rest else After(p.rest, Comma);
      if keyed == [] || !keyed[0].Str? then !got.Tok? || !got.token.Str?
      else got == Tok(keyed[0]) && q == Place(keyed[1..], ObjectColon, p.stack)
  {
  }

  lemma {:induction false} NextClose(p: Place, close: Token)
    requires !MoreIn(p.rest) && p.stack != []
    requires (close == RBracket && p.state in {ArrayStart, ArrayComma})
             || (close == RBrace && p.state in {ObjectStart, ObjectComma})
    ensures if p.rest != [] && p.rest[0] == close then Next(p) == (Tok(close), Leave(p)) else !Next(p).0.Tok?
  {
  }

  class Decoder {
    var rest: seq<Token>
    var state: State
    var stack: seq<State>

    constructor (tokens: seq<Token>)
      ensures Here() == Place(tokens, Top, [])
    {
      rest, state, stack := tokens, Top, [];
    }

    function Here(): Place
      reads this
    {
      Place(rest, state, stack)
    }

    method More() returns (more: bool)
      ensures more <==> MoreIn(rest)
    {
      more := rest != [] && rest[0] != RBracket && rest[0] != RBrace;
    }

    method Push(inside: State)
      requires rest != []
      modifies this
      ensures Here() == Enter(old(Here()), inside)
    {
      stack := stack + [state];
      rest, state := rest[1..], inside;
    }

    method Pop()
      requires rest != [] && stack != []
      modifies this
      ensures Here() == Leave(old(Here()))
    {
      rest, state := rest[1..], ValueEnd(stack[|stack| - 1]);
      stack := stack[..|stack| - 1];
    }

    method Token() returns (got: Got)
      modifies this
      ensures (got, Here()) == Next(old(Here()))
    {
      while rest != []
        invariant Next(Here()) == Next(old(Here()))
        decreases |rest|
      {
        var t := rest[0];
        match t {
          case LBracket =>
            if !ValueAllowed(state) { return Fault; }
            Push(ArrayStart);
            return Tok(t);
          case LBrace =>
            if !ValueAllowed(state) { return Fault; }
            Push(ObjectStart);
            return Tok(t);
          case RBracket =>
            if !(state in {ArrayStart, ArrayComma} && stack != []) { return Fault; }
            Pop();
            return Tok(t);
          case RBrace =>
            if !(state in {ObjectStart, ObjectComma} && stack != []) { return Fault; }
            Pop();
            return Tok(t);
          case Colon =>
            if state != ObjectColon { return Fault; }
            rest, state := rest[1..], ObjectValue;
          case Comma =>
            if state == ArrayComma {
              rest, state := rest[1..], ArrayValue;
            } else if state == ObjectComma {
              rest, state := rest[1..], ObjectKey;
            } else {
              return Fault;
            }
          case Bad =>
            return Fault;
          case Str(_) =>
            if state in {ObjectStart, ObjectKey} {
              rest, state := rest[1..], ObjectColon;
              return Tok(t);
            }
            if !ValueAllowed(state) { return Fault; }
            rest, state := rest[1..], ValueEnd(state);
            return Tok(t);
          case _ =>
            if !ValueAllowed(state) { return Fault; }
            rest, state := rest[1..], ValueEnd(state);
            return Tok(t);
        }
      }
      got := Eof;
    }
  }

  /** Where the decoder stands behind the first token of a value. */
  function Behind(ready: seq<Token>, state: State, stack: seq<State>): Place
    requires ready != [] && ValueToken(ready[0])
  {
    if LeafToken(ready[0]) then Place(ready[1..], ValueEnd(Inner(state)), stack)
    else Place(ready[1..], if ready[0] == LBracket then ArrayStart else ObjectStart, stack + [Inner(state)])
  }

  /** The first token of a value, or None where no value comes. */
  method ReadFirst(d: Decoder) returns (first: Option<Token>)
    requires ValuePlace(d.state)
    modifies d
    ensures var ready := Ready(old(d.state), old(d.rest));
      if ready == [] || !ValueToken(ready[0]) then first.None?
      else first == Some(ready[0]) && d.Here() == Behind(ready, old(d.state), old(d.stack))
  {
    NextValue(d.Here());
    var got := d.Token();
    first := if got.Tok? && ValueToken(got.token) then Some(got.token) else None;
  }

  /** A token that must be a key. */
  method ReadKey(d: Decoder) returns (key: Option<string>)
    requires d.state in {ObjectStart, ObjectComma} && MoreIn(d.rest)
    modifies d
    ensures var keyed := if old(d.state) == ObjectStart then old(d.rest) else After(old(d.rest), Comma);
      if keyed == [] || !keyed[0].Str? then key.None?
      else key == Some(keyed[0].value) && d.Here() == Place(keyed[1..], ObjectColon, old(d.stack))
  {
    NextKey(d.Here());
    var got := d.Token();
    key := if got.Tok? && got.token.Str? then Some(got.token.value) else None;
  }

  /** A token that must close the container. */
  method ReadClose(d: Decoder, close: Token) returns (ok: bool)
    requires !MoreIn(d.rest) && d.stack != []
    requires (close == RBracket && d.state in {ArrayStart, ArrayComma})
             || (close == RBrace && d.state in {ObjectStart, ObjectComma})
    modifies d
    ensures ok <==> old(d.rest) != [] && old(d.rest)[0] == close
    ensures ok ==> d.Here() == Leave(old(d.Here()))
  {
    NextClose(d.Here(), close);
    var end := d.Token();
    ok := end == Tok(close);
  }
}
