// serializeProtocolData (src/game_logic/protocol/ProtocolData.cpp:42-63): the text of a message,
// for whatever order the unordered map hands out its fields.
module ProtocolText {
  import opened ProtocolMessages

  type Field = (string, string)

  function FieldLine(f: Field): string {
    f.0 + ":" + f.1
  }

  function FieldLines(order: seq<Field>): (ls: seq<string>)
    ensures |ls| == |order|
    ensures forall i :: 0 <= i < |ls| ==> ls[i] == FieldLine(order[i])
  {
    seq(|order|, i requires 0 <= i < |order| => FieldLine(order[i]))
  }

  function MessageLines(m: MethodName, order: seq<Field>): seq<string> {
    [SerializeMethodName(m)] + FieldLines(order)
  }

  function LinesText(ls: seq<string>): string {
    if ls == [] then "" else ls[0] + "\n" + LinesText(ls[1..])
  }

  function MessageText(m: MethodName, order: seq<Field>): string {
    LinesText(MessageLines(m, order)) + "\r\n\r\n"
  }

  // The map that results from setting the fields one after the other.
  function SetFields(data: map<string, string>, order: seq<Field>): map<string, string>
    decreases |order|
  {
    if order == [] then data else SetFields(data[order[0].0 := order[0].1], order[1..])
  }

  ghost predicate DistinctNames(order: seq<Field>) {
    forall i, j :: 0 <= i < j < |order| ==> order[i].0 != order[j].0
  }

  // order lists every field of data exactly once.
  ghost predicate IsOrder(data: map<string, string>, order: seq<Field>) {
    DistinctNames(order) && SetFields(map[], order) == data
  }

  lemma {:induction false} SetFieldsAppend(data: map<string, string>, order: seq<Field>, f: Field)
    ensures SetFields(data, order + [f]) == SetFields(data, order)[f.0 := f.1]
    decreases |order|
  {
    if order == [] {
      assert [f][1..] == [];
    } else {
      assert (order + [f])[1..] == order[1..] + [f];
      SetFieldsAppend(data[order[0].0 := order[0].1], order[1..], f);
    }
  }

  lemma {:induction false} LinesTextAppend(ls: seq<string>, l: string)
    ensures LinesText(ls + [l]) == LinesText(ls) + l + "\n"
    decreases |ls|
  {
    if ls == [] {
      assert [l][1..] == [];
    } else {
      assert (ls + [l])[1..] == ls[1..] + [l];
      LinesTextAppend(ls[1..], l);
    }
  }

  lemma {:induction false} SetFieldsHolds(data: map<string, string>, order: seq<Field>)
    requires DistinctNames(order)
    ensures forall i :: 0 <= i < |order| ==> order[i].0 in SetFields(data, order) && SetFields(data, order)[order[i].0] == order[i].1
    decreases |order|
  {
    if order != [] {
      var k := |order| - 1;
      var front := order[..k];
      assert order == front + [order[k]];
      SetFieldsAppend(data, front, order[k]);
      SetFieldsHolds(data, front);
    }
  }

  // The text of the message with its fields in some order.
  ghost predicate IsTextOf(msg: ProtocolData, output: string) {
    exists order :: IsOrder(msg.data, order) && output == MessageText(msg.methodName, order)
  }

  method SerializeProtocolData(msg: ProtocolData) returns (output: string)
    ensures IsTextOf(msg, output)
  {
    output := SerializeMethodName(msg.methodName) + "\n";
    ghost var order: seq<Field> := [];
    var rest := msg.data.Keys;
    ghost var done: set<string> := {};
    LinesTextAppend([], SerializeMethodName(msg.methodName));
    assert MessageLines(msg.methodName, []) == [] + [SerializeMethodName(msg.methodName)];
    while rest != {}
      invariant rest + done == msg.data.Keys && rest !! done
      invariant DistinctNames(order) && forall i :: 0 <= i < |order| ==> order[i].0 in done
      invariant SetFields(map[], order) == map k | k in done :: msg.data[k]
      invariant output == LinesText(MessageLines(msg.methodName, order))
      decreases rest
    {
      var attrName :| attrName in rest;
      var attrValue := msg.data[attrName];
      ghost var f := (attrName, attrValue);
      SetFieldsAppend(map[], order, f);
      assert MessageLines(msg.methodName, order + [f]) == MessageLines(msg.methodName, order) + [FieldLine(f)];
      LinesTextAppend(MessageLines(msg.methodName, order), FieldLine(f));
      output := output + attrName + ":" + attrValue + "\n";
      rest := rest - {attrName};
      done := done + {attrName};
      order := order + [f];
    }
    assert msg.data == map k | k in done :: msg.data[k];
    output := output + "\r\n\r\n";
    assert IsOrder(msg.data, order) && output == MessageText(msg.methodName, order);
  }
}
