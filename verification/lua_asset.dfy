/** The part of a Lua state the mesh builder uses: a stack of values, tables
    read by string key or by 1-based integer index, and the conversions of a
    value to an integer, a float and a colour byte. */
module LuaAsset {
  import opened Bytes
  import opened VertexFormat

  /** What `lua_tointeger`, `(float)lua_tonumber` and
      `(uint8_t)(255 * lua_tonumber)` give for one number: its integer value
      (0 when it has none), its nearest `float`, and the truncated colour
      byte. */
  datatype Numeral = Numeral(integer: int, single: Float32, channel: Byte)

  /** A Lua value. A number carries its conversions. A string carries them
      too when it is a numeral (Lua converts `"0.5"` to the number it spells),
      and `None` otherwise. A table holds its string-keyed fields and its
      sequence part `t[1] .. t[n]`, where `n` is the border `#t` Lua reports:
      `items` stops there, so a table whose length is taken never ends its
      `items` with `Nil`. */
  datatype LuaValue =
    | Nil
    | Boolean(truth: bool)
    | Number(value: Numeral)
    | Text(text: string, numeral: Option<Numeral>)
    | Table(fields: map<string, LuaValue>, items: seq<LuaValue>)

  /** The number a value converts to, as `lua_tonumber` and
      `lua_tointeger` see it: a number itself, a string that is a numeral,
      and nothing else. */
  function AsNumeral(v: LuaValue): (n: Option<Numeral>)
    ensures n.Some? <==> v.Number? || (v.Text? && v.numeral.Some?)
    ensures v.Number? ==> n == Some(v.value)
    ensures v.Text? ==> n == v.numeral
  {
    match v
    case Number(value) => Some(value)
    case Text(_, numeral) => numeral
    case _ => None
  }

  /** `t[key]` for a string key: nil when absent. */
  function Field(t: LuaValue, key: string): LuaValue
    requires t.Table?
  {
    if key in t.fields then t.fields[key] else Nil
  }

  /** `t[i]` for an integer key: nil outside `1 .. #t`. */
  function Item(t: LuaValue, i: int): (v: LuaValue)
    requires t.Table?
    ensures 1 <= i <= |t.items| ==> v == t.items[i - 1]
    ensures !(1 <= i <= |t.items|) ==> v == Nil
  {
    if 1 <= i <= |t.items| then t.items[i - 1] else Nil
  }

  /** `lua_tointeger`: zero for anything that does not convert. */
  function ToInteger(v: LuaValue): int
  {
    if AsNumeral(v).Some? then AsNumeral(v).value.integer else 0
  }

  /** `(float)lua_tonumber`: 0.0f for anything that does not convert. */
  function ToFloat(v: LuaValue): Float32
  {
    if AsNumeral(v).Some? then AsNumeral(v).value.single else Zero
  }

  /** `(uint8_t)(255 * lua_tonumber)`: 0 for anything that does not
      convert. */
  function ToChannel(v: LuaValue): Byte
  {
    if AsNumeral(v).Some? then AsNumeral(v).value.channel else 0
  }

  /** What `GetVertexData` stores for a vertex table `t`: x and y from
      `position[1]` and `position[2]` when "position" is a table, r, g, b, a
      from `color[1] .. color[4]` when "color" is a table. A field whose table
      is missing keeps whatever the uninitialised `sVertex` held. */
  ghost predicate VertexFrom(t: LuaValue, v: Vertex)
    requires t.Table?
  {
    && (Field(t, "position").Table? ==>
          var p := Field(t, "position");
          v.x == ToFloat(Item(p, 1)) && v.y == ToFloat(Item(p, 2)))
    && (Field(t, "color").Table? ==>
          var c := Field(t, "color");
          && v.r == ToChannel(Item(c, 1)) && v.g == ToChannel(Item(c, 2))
          && v.b == ToChannel(Item(c, 3)) && v.a == ToChannel(Item(c, 4)))
  }

  class LuaState {
    /** The value stack, bottom first; the top is the last element. */
    var stack: seq<LuaValue>

    constructor ()
      ensures stack == []
    {
      stack := [];
    }

    /** `lua_pcall` leaving what the chunk returned on the stack. */
    method PushAll(values: seq<LuaValue>)
      modifies this
      ensures stack == old(stack) + values
    {
      stack := stack + values;
    }

    /** The value on top of the stack. */
    function Top(): LuaValue
      reads this
      requires stack != []
    {
      stack[|stack| - 1]
    }

    /** `lua_pop(L, n)`. */
    method Pop(n: nat)
      requires n <= |stack|
      modifies this
      ensures stack == old(stack[..|stack| - n])
    {
      stack := stack[..|stack| - n];
    }

    /** `LoadTableWithKey`: pushes `top[key]` and keeps it when it is a
        table; otherwise pops it again and fails. */
    method LoadTableWithKey(key: string) returns (ok: bool)
      requires stack != [] && Top().Table?
      modifies this
      ensures ok <==> Field(old(Top()), key).Table?
      ensures ok ==> stack == old(stack) + [Field(old(Top()), key)]
      ensures !ok ==> stack == old(stack)
    {
      var v := Field(Top(), key);
      stack := stack + [v];
      if !v.Table? {
        Pop(1);
        return false;
      }
      return true;
    }

    /** `LoadTableWithIndex`: the same with a 1-based integer key. */
    method LoadTableWithIndex(index: int) returns (ok: bool)
      requires stack != [] && Top().Table?
      modifies this
      ensures ok <==> Item(old(Top()), index).Table?
      ensures ok ==> stack == old(stack) + [Item(old(Top()), index)]
      ensures !ok ==> stack == old(stack)
    {
      var v := Item(Top(), index);
      stack := stack + [v];
      if !v.Table? {
        Pop(1);
        return false;
      }
      return true;
    }

    /** `LoadValueWithIndex`: pushes `top[index]`, whatever it is, and
        reports success. */
    method LoadValueWithIndex(index: int) returns (ok: bool)
      requires stack != [] && Top().Table?
      modifies this
      ensures ok
      ensures stack == old(stack) + [Item(old(Top()), index)]
    {
      stack := stack + [Item(Top(), index)];
      return true;
    }

    /** `GetVertexData`: reads the vertex table on top of the stack and leaves
        the stack as it found it. */
    method GetVertexData() returns (v: Vertex)
      requires stack != [] && Top().Table?
      modifies this
      ensures stack == old(stack)
      ensures VertexFrom(old(Top()), v)
    {
      v := *;
      var hasPosition := LoadTableWithKey("position");
      if hasPosition {
        var loaded := LoadValueWithIndex(1);
        v := v.(x := ToFloat(Top()));
        Pop(1);
        loaded := LoadValueWithIndex(2);
        v := v.(y := ToFloat(Top()));
        Pop(1);
        Pop(1);
      }
      var hasColor := LoadTableWithKey("color");
      if hasColor {
        var loaded := LoadValueWithIndex(1);
        v := v.(r := ToChannel(Top()));
        Pop(1);
        loaded := LoadValueWithIndex(2);
        v := v.(g := ToChannel(Top()));
        Pop(1);
        loaded := LoadValueWithIndex(3);
        v := v.(b := ToChannel(Top()));
        Pop(1);
        loaded := LoadValueWithIndex(4);
        v := v.(a := ToChannel(Top()));
        Pop(1);
        Pop(1);
      }
    }
  }
}
