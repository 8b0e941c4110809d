/** Python's `parse_body`: which JSON bodies reach the transaction. */
module Body {
  import opened ProductIds
  import opened Orders
  import opened Pricing

  datatype Json =
    | Null
    | Bool(b: bool)
    | Int(n: int)
    | Float(x: real)
    | Str(s: string)
    | Arr(elems: seq<Json>)
    | Obj(fields: map<string, Json>)

  /** `body.get(name)` */
  function Get(fields: map<string, Json>, name: string): Json {
    if name in fields then fields[name] else Null
  }

  /** `isinstance(v, int)` with its value; Python's booleans are the integers 0 and 1. */
  function AsInt(v: Json): Option<int> {
    match v
    case Int(n) => Some(n)
    case Bool(b) => Some(if b then 1 else 0)
    case _ => None
  }

  predicate IntBetween(v: Json, lo: int, hi: Option<int>) {
    match AsInt(v)
    case None => false
    case Some(n) => lo <= n && (hi.Some? ==> n <= hi.value)
  }

  predicate GoodLine(v: Json) {
    && v.Obj?
    && IntBetween(Get(v.fields, "product_id"), 1, None)
    && IntBetween(Get(v.fields, "quantity"), 1, Some(1000))
  }

  /** The contract: a positive customer id and 1 to 20 lines with ids >= 1 and quantities 1..1000. */
  predicate GoodBody(v: Json) {
    && v.Obj?
    && IntBetween(Get(v.fields, "customer_id"), 1, None)
    && Get(v.fields, "items").Arr?
    && 1 <= |Get(v.fields, "items").elems| <= 20
    && forall i :: 0 <= i < |Get(v.fields, "items").elems| ==> GoodLine(Get(v.fields, "items").elems[i])
  }

  function LineOf(v: Json): Line
    requires GoodLine(v)
  {
    Line(AsInt(Get(v.fields, "product_id")).value, AsInt(Get(v.fields, "quantity")).value)
  }

  datatype Parsed = Rejected | Parsed(customer: int, items: seq<Line>)

  // ----- bodies made from a customer and lines -----

  function LineObject(line: Line): Json {
    Obj(map["product_id" := Int(line.product), "quantity" := Int(line.quantity)])
  }

  function BodyObject(customer: int, lines: seq<Line>): Json {
    Obj(map["customer_id" := Int(customer),
            "items" := Arr(seq(|lines|, i requires 0 <= i < |lines| => LineObject(lines[i])))])
  }

  lemma GoodLineObject(line: Line)
    ensures GoodLine(LineObject(line)) <==> line.product >= 1 && 1 <= line.quantity <= 1000
    ensures GoodLine(LineObject(line)) ==> LineOf(LineObject(line)) == line
  {
  }

  /** A body made from a customer and lines is good exactly within the contract's numbers. */
  lemma GoodBodyObject(customer: int, lines: seq<Line>)
    ensures GoodBody(BodyObject(customer, lines)) <==>
              && customer >= 1 && 1 <= |lines| <= 20
              && forall i :: 0 <= i < |lines| ==> lines[i].product >= 1 && 1 <= lines[i].quantity <= 1000
    ensures GoodBody(BodyObject(customer, lines)) ==> forall i :: 0 <= i < |lines| ==>
              LineOf(Get(BodyObject(customer, lines).fields, "items").elems[i]) == lines[i]
  {
    var elems := Get(BodyObject(customer, lines).fields, "items").elems;
    forall i | 0 <= i < |lines|
      ensures GoodLine(elems[i]) <==> lines[i].product >= 1 && 1 <= lines[i].quantity <= 1000
      ensures GoodLine(elems[i]) ==> LineOf(elems[i]) == lines[i]
    {
      GoodLineObject(lines[i]);
    }
  }

  predicate IsInteger(v: Json) {
    v.Int? || v.Bool?
  }

  /** Anything but an object with an integer customer and a list is no body. */
  lemma MalformedBody(fields: map<string, Json>, v: Json)
    ensures !v.Obj? ==> !GoodBody(v)
    ensures "customer_id" !in fields || "items" !in fields ==> !GoodBody(Obj(fields))
    ensures !IsInteger(v) ==> !GoodBody(Obj(fields["customer_id" := v]))
    ensures !v.Arr? ==> !GoodBody(Obj(fields["items" := v]))
  {
  }

  /** One bad line spoils a body: no object, a missing field, or a field that is no integer. */
  lemma MalformedLine(fields: map<string, Json>, elems: seq<Json>, i: nat, line: map<string, Json>, name: string, v: Json)
    requires i < |elems| && name in ["product_id", "quantity"]
    requires || !elems[i].Obj?
             || (elems[i] == Obj(line) && name !in line)
             || (elems[i] == Obj(line[name := v]) && !IsInteger(v))
    ensures !GoodBody(Obj(fields["items" := Arr(elems)]))
  {
    assert !GoodLine(elems[i]);
  }

  method ParseBody(body: Json) returns (r: Parsed)
    ensures r.Parsed? <==> GoodBody(body)
    ensures r.Parsed? ==>
              && AsInt(Get(body.fields, "customer_id")) == Some(r.customer)
              && |r.items| == |Get(body.fields, "items").elems|
              && forall i :: 0 <= i < |r.items| ==> r.items[i] == LineOf(Get(body.fields, "items").elems[i])
    ensures r.Parsed? ==> r.items != [] && WithinContract(r.items)
    ensures forall customer: int, lines: seq<Line> :: body == BodyObject(customer, lines) ==>
              r == if && customer >= 1 && 1 <= |lines| <= 20
                      && forall i :: 0 <= i < |lines| ==> lines[i].product >= 1 && 1 <= lines[i].quantity <= 1000
                   then Parsed(customer, lines) else Rejected
  {
    forall customer: int, lines: seq<Line> | body == BodyObject(customer, lines)
      ensures GoodBody(body) <==>
                && customer >= 1 && 1 <= |lines| <= 20
                && forall i :: 0 <= i < |lines| ==> lines[i].product >= 1 && 1 <= lines[i].quantity <= 1000
      ensures Get(body.fields, "customer_id") == Int(customer) && |Get(body.fields, "items").elems| == |lines|
      ensures GoodBody(body) ==>
                forall i :: 0 <= i < |lines| ==> LineOf(Get(body.fields, "items").elems[i]) == lines[i]
    {
      GoodBodyObject(customer, lines);
    }
    if !body.Obj? {
      return Rejected;
    }
    var customer := AsInt(Get(body.fields, "customer_id"));
    var items := Get(body.fields, "items");
    if customer.None? || customer.value <= 0 {
      return Rejected;
    }
    if !items.Arr? || items.elems == [] || |items.elems| > 20 {
      return Rejected;
    }
    var lines: seq<Line> := [];
    for i := 0 to |items.elems|
      invariant |lines| == i
      invariant forall k :: 0 <= k < i ==> GoodLine(items.elems[k]) && lines[k] == LineOf(items.elems[k])
    {
      var it := items.elems[i];
      if !it.Obj? {
        return Rejected;
      }
      var pid, qty := AsInt(Get(it.fields, "product_id")), AsInt(Get(it.fields, "quantity"));
      if pid.None? || pid.value <= 0 {
        return Rejected;
      }
      if qty.None? || qty.value <= 0 || qty.value > 1000 {
        return Rejected;
      }
      lines := lines + [Line(pid.value, qty.value)];
    }
    r := Parsed(customer.value, lines);
  }
}
