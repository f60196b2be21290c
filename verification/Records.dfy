/**
  The records of the fluentd plugin (`out_daap.rb`): hashes from keys to values, as values
  and as the objects that the code changes.
 */
module Records {
  import opened Options
  import opened PluginText

  /**
    Values of a record. The last three stand for what `strftime`, `to_i` and `to_f` (rounded to
    a number of digits, if any) make of a value.
   */
  datatype Value =
    | Nil | Text(text: string) | Number(number: real) | Int(whole: int)
    | Formatted(stamp: Value) | ToInt(of: Value) | ToFloat(of: Value, digits: Option<nat>)

  type Data = map<string, Value>

  function Get(d: Data, key: string): Value {
    if key in d then d[key] else Nil
  }

  /** How a value from somewhere is entered. */
  datatype Conversion = AsIs | AsInt | AsFloat(digits: Option<nat>)

  function Convert(v: Value, how: Conversion): Value {
    match how
    case AsIs => v
    case AsInt => ToInt(v)
    case AsFloat(digits) => ToFloat(v, digits)
  }

  /** The values of some keys of `from`, converted. */
  function Enter(d: Data, from: Data, keys: seq<string>, how: Conversion): Data
    decreases |keys|
  {
    if keys == [] then d else Enter(d[keys[0] := Convert(Get(from, keys[0]), how)], from, keys[1..], how)
  }

  /** The values of some keys of the record itself, converted. */
  function Change(d: Data, keys: seq<string>, how: Conversion): Data
    decreases |keys|
  {
    if keys == [] then d else Change(d[keys[0] := Convert(Get(d, keys[0]), how)], keys[1..], how)
  }

  function Rename(d: Data, from: string, to: string): Data {
    d[to := Get(d, from)] - {from}
  }

  /** Without hyphens, if there is such a text. */
  function Dashless(d: Data, key: string): Data {
    if key in d && d[key].Text? then d[key := Text(RemoveAll(d[key].text, "-"))] else d
  }

  /** Converting changes the listed keys only, and each of them once. */
  lemma {:induction false} ChangeAt(d: Data, keys: seq<string>, how: Conversion, key: string)
    requires forall i, j | 0 <= i < j < |keys| :: keys[i] != keys[j]
    ensures Get(Change(d, keys, how), key) == if key in keys then Convert(Get(d, key), how) else Get(d, key)
    decreases |keys|
  {
    if keys != [] {
      ChangeAt(d[keys[0] := Convert(Get(d, keys[0]), how)], keys[1..], how, key);
      assert keys == [keys[0]] + keys[1..];
    }
  }

  /** A record on its way out (a Ruby hash). */
  class Rec {
    var data: Data

    constructor (data: Data)
      ensures this.data == data
    {
      this.data := data;
    }

    method Set(key: string, value: Value)
      modifies this
      ensures data == old(data)[key := value]
    {
      data := data[key := value];
    }

    method Delete(key: string)
      modifies this
      ensures data == old(data) - {key}
    {
      data := data - {key};
    }

    method Clone() returns (r: Rec)
      ensures fresh(r) && r.data == data
    {
      r := new Rec(data);
    }

    /** A loop that copies tags. */
    method EnterAll(from: Data, keys: seq<string>, how: Conversion)
      modifies this
      ensures data == Enter(old(data), from, keys, how)
    {
      ghost var start := data;
      for i := 0 to |keys|
        invariant Enter(start, from, keys, how) == Enter(data, from, keys[i..], how)
      {
        assert keys[i..][1..] == keys[i + 1..];
        Set(keys[i], Convert(Get(from, keys[i]), how));
      }
    }

    /** A loop that converts fields. */
    method ChangeAll(keys: seq<string>, how: Conversion)
      modifies this
      ensures data == Change(old(data), keys, how)
    {
      ghost var start := data;
      for i := 0 to |keys|
        invariant Change(start, keys, how) == Change(data, keys[i..], how)
      {
        assert keys[i..][1..] == keys[i + 1..];
        var val := Convert(Get(data, keys[i]), how);
        Set(keys[i], val);
      }
    }

    method Move(from: string, to: string)
      modifies this
      ensures data == Rename(old(data), from, to)
    {
      Set(to, Get(data, from));
      Delete(from);
    }

    method RemoveDashes(key: string)
      modifies this
      ensures data == Dashless(old(data), key)
    {
      if key in data && data[key].Text? {
        Set(key, Text(RemoveAll(data[key].text, "-")));
      }
    }
  }
}
