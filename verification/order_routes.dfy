/** The order routes: POST checks the body's shape, then that it has items,
    and only then stores the order with its items in their JSON text form;
    GET lists every stored order, newest first, with the item text parsed
    back. */
module OrderRoutes {
  import opened Text
  import opened OrderCodec
  import Sorting

  // ---------------------------------------------------------------- body

  /** What the body's order_items holds: nothing, an array of items, or any
      other JSON value (shown by its text). */
  datatype ItemsField = Absent | ItemArray(items: seq<Item>) | NotArray(shown: string)

  /** A submitted order. total_amount is the text the validator reads: the
      string sent, or String(n) of a number. */
  datatype OrderBody = OrderBody(
    customer_name: Option<string>, customer_email: Option<string>, customer_phone: Option<string>,
    order_items: ItemsField, total_amount: Option<string>)

  /** An entry of errors.array(): the field's path and the message given to
      its check. */
  datatype SchemaError = SchemaError(path: string, msg: string)

  const ItemsMessage := "order_items must be an array"
  const AmountMessage := "total_amount must be a number"
  const EmptyItemsMessage := "Order items cannot be empty."
  const PlacedMessage := "Order placed successfully"
  const PlaceFailedMessage := "Error placing order"
  const FetchFailedMessage := "Error fetching orders"

  /** Digits, at least one. */
  predicate DigitsPlus(s: string)
  {
    s != [] && AllDigits(s)
  }

  /** isNumeric's pattern ^[+-]?([0-9]*[.])?[0-9]+$ read character by
      character: an optional sign, then digits, or digits, a point and at
      least one digit. */
  predicate NumericText(s: string)
  {
    var r := if s != [] && (s[0] == '+' || s[0] == '-') then s[1..] else s;
    || DigitsPlus(r)
    || (exists i | 0 <= i < |r| :: r[i] == '.' && AllDigits(r[..i]) && DigitsPlus(r[i + 1..]))
  }

  /** Texts the pattern accepts: integers, signed or not, and decimals with
      or without an integer part. */
  lemma NumericTextAccepts()
    ensures NumericText("42") && NumericText("-3") && NumericText("25.50") && NumericText(".5")
  {
    assert "25.50"[2] == '.' && AllDigits("25.50"[..2]) && DigitsPlus("25.50"[3..]);
    assert ".5"[0] == '.' && AllDigits(".5"[..0]) && DigitsPlus(".5"[1..]);
  }

  /** Texts the pattern refuses: nothing, a bare sign, letters and a
      trailing point. */
  lemma NumericTextRefuses()
    ensures !NumericText("") && !NumericText("+") && !NumericText("abc") && !NumericText("1.")
  {
    assert !IsDigit("abc"[0]) && !IsDigit("1."[1]);
    assert !DigitsPlus("1."[2..]);
  }

  /** The numeral of any integer, signed or not, passes the pattern, so an
      integer total is always accepted as numeric. */
  lemma NumericTextOfInt(n: int)
    ensures NumericText(IntToString(n))
  {
    var s := IntToString(n);
    if n >= 0 {
      assert IsDigit(s[0]);
    } else {
      assert s[1..] == NatToString(-n);
    }
  }

  lemma NumericTextTwoPoints()
    ensures !NumericText("1.2.3")
  {
    var bad := "1.2.3";
    assert !DigitsPlus(bad[1 + 1..]) by {
      assert bad[1 + 1..][1] == '.';
    }
    assert !AllDigits(bad[..3]) by {
      assert bad[..3][1] == '.';
    }
  }

  /** The two schema checks, order_items first: an error for each failing
      one. An absent field fails both checks. */
  function SchemaErrors(body: OrderBody): (errors: seq<SchemaError>)
    ensures errors == [] <==> body.order_items.ItemArray? && NumericText(TextOf(body.total_amount))
    ensures SchemaError("order_items", ItemsMessage) in errors <==> !body.order_items.ItemArray?
    ensures SchemaError("total_amount", AmountMessage) in errors <==> !NumericText(TextOf(body.total_amount))
    ensures forall e :: e in errors ==> e in [SchemaError("order_items", ItemsMessage), SchemaError("total_amount", AmountMessage)]
    ensures |errors| == 2 ==> errors[0].path == "order_items"
  {
    (if body.order_items.ItemArray? then [] else [SchemaError("order_items", ItemsMessage)])
    + (if NumericText(TextOf(body.total_amount)) then [] else [SchemaError("total_amount", AmountMessage)])
  }

  datatype PostReply =
    | Placed(orderId: nat)
    | SchemaInvalid(errors: seq<SchemaError>)
    | EmptyItems
    | PlaceFailed(error: string)

  function PostStatus(reply: PostReply): int
  {
    match reply
    case Placed(_) => 201
    case SchemaInvalid(_) => 400
    case EmptyItems => 400
    case PlaceFailed(_) => 500
  }

  /** The answer POST gives before it reaches the store, if any: schema
      errors first, then the empty-items check. */
  function Rejection(body: OrderBody): (r: Option<PostReply>)
    ensures r.None? <==> SchemaErrors(body) == [] && body.order_items.items != []
    ensures SchemaErrors(body) != [] ==> r == Some(SchemaInvalid(SchemaErrors(body)))
    ensures r == Some(EmptyItems) <==> SchemaErrors(body) == [] && body.order_items.items == []
    ensures r.Some? ==> PostStatus(r.value) == 400
  {
    var errors := SchemaErrors(body);
    if errors != [] then Some(SchemaInvalid(errors))
    else if body.order_items.items == [] then Some(EmptyItems)
    else None
  }

  /** A body without order_items never reaches the empty-items check: the
      array check has already refused it, whatever total_amount says. */
  lemma MissingItemsFailSchema(body: OrderBody)
    requires body.order_items.Absent?
    ensures Rejection(body).Some? && Rejection(body).value.SchemaInvalid?
    ensures Rejection(body).value.errors[0] == SchemaError("order_items", ItemsMessage)
  {
  }

  // ---------------------------------------------------------------- store

  /** An orders row, generic in how order_items is held: its JSON text in the
      table, the parsed items in what GET returns. created_at is the
      database's timestamp of the insert. */
  datatype Order<I> = Order(
    id: nat, customer_name: Option<string>, customer_email: Option<string>,
    customer_phone: Option<string>, order_items: I, total_amount: string, created_at: int)

  /** The row inserted for an accepted body at time `now`. */
  function NewOrder(id: nat, body: OrderBody, now: int): Order<string>
    requires body.order_items.ItemArray?
  {
    Order(id, body.customer_name, body.customer_email, body.customer_phone,
          Serialize(body.order_items.items), TextOf(body.total_amount), now)
  }

  /** The stored total is the submitted text itself: it does not depend on
      the items, their prices or their quantities. */
  lemma TotalAsSubmitted(id: nat, body: OrderBody, now: int, other: seq<Item>)
    requires Rejection(body).None?
    ensures NewOrder(id, body, now).total_amount == body.total_amount.value
    ensures NewOrder(id, body.(order_items := ItemArray(other)), now).total_amount == NewOrder(id, body, now).total_amount
  {
    assert NumericText(TextOf(body.total_amount));
    assert body.total_amount.Some? by {
      assert !NumericText("");
    }
  }

  /** GET's map over one row: the row with order_items replaced by its parse;
      no other field changes. A text that does not parse throws. */
  function Decoded(row: Order<string>): (r: Option<Order<seq<Item>>>)
    ensures r.Some? <==> Parse(row.order_items).Some?
    ensures r.Some? ==> r.value.order_items == Parse(row.order_items).value
    ensures r.Some? ==>
              && r.value.id == row.id && r.value.customer_name == row.customer_name
              && r.value.customer_email == row.customer_email && r.value.customer_phone == row.customer_phone
              && r.value.total_amount == row.total_amount && r.value.created_at == row.created_at
  {
    var items :- Parse(row.order_items);
    Some(Order(row.id, row.customer_name, row.customer_email, row.customer_phone,
               items, row.total_amount, row.created_at))
  }

  /** rows.map(Decoded): one output per row in the same order, or a failure
      as soon as one row's text does not parse. */
  function DecodeAll(rows: seq<Order<string>>): (r: Option<seq<Order<seq<Item>>>>)
    ensures r.Some? <==> forall i :: 0 <= i < |rows| ==> Decoded(rows[i]).Some?
    ensures r.Some? ==> |r.value| == |rows| && forall i :: 0 <= i < |rows| ==> Decoded(rows[i]) == Some(r.value[i])
  {
    if rows == [] then Some([])
    else
      var first, rest := Decoded(rows[0]), DecodeAll(rows[1..]);
      assert forall i :: 1 <= i < |rows| ==> rows[i] == rows[1..][i - 1];
      if first.None? || rest.None? then None else Some([first.value] + rest.value)
  }

  /** A stored order read back: the submitted items, in their order, with
      every other field as inserted. */
  lemma PlacedOrderReadBack(id: nat, body: OrderBody, now: int)
    requires body.order_items.ItemArray?
    ensures Decoded(NewOrder(id, body, now))
            == Some(Order(id, body.customer_name, body.customer_email, body.customer_phone,
                          body.order_items.items, TextOf(body.total_amount), now))
  {
    RoundTrip(body.order_items.items);
  }

  /** What Post keeps true of every row it inserts. */
  lemma NewOrderStoredWell(id: nat, body: OrderBody, now: int)
    requires Rejection(body).None?
    ensures StoredWell(NewOrder(id, body, now))
  {
    var items := body.order_items.items;
    assert items != [] && Serialize(items) == NewOrder(id, body, now).order_items;
  }

  /** ORDER BY created_at DESC as a comparator: a later row comes first. */
  function Newest(): (Order<string>, Order<string>) -> int
  {
    (a: Order<string>, b: Order<string>) => b.created_at - a.created_at
  }

  /** The rows in the order the SELECT returns them: newest first, rows with
      the same timestamp in table order. */
  function ListOrder(rows: seq<Order<string>>): (sorted: seq<Order<string>>)
    ensures multiset(sorted) == multiset(rows)
    ensures |sorted| == |rows| && forall r :: r in sorted <==> r in rows
  {
    var sorted := Sorting.Sort(rows, Newest());
    assert |sorted| == |multiset(sorted)| == |multiset(rows)| == |rows|;
    assert forall r :: r in sorted <==> r in multiset(sorted);
    assert forall r :: r in rows <==> r in multiset(rows);
    sorted
  }

  lemma NewestFirst(rows: seq<Order<string>>)
    ensures var sorted := ListOrder(rows);
      forall i, j :: 0 <= i < j < |sorted| ==> sorted[i].created_at >= sorted[j].created_at
  {
    var elems := set r | r in rows;
    Sorting.SortSorted(rows, Newest(), elems);
  }

  datatype ListReply = Orders(orders: seq<Order<seq<Item>>>) | ListFailed(error: string)

  function ListStatus(reply: ListReply): int
  {
    if reply.Orders? then 200 else 500
  }

  /** What every stored row satisfies: its item text is the serialization
      of a non-empty item list, and its total is numeric text. */
  ghost predicate StoredWell(row: Order<string>)
  {
    && (exists items: seq<Item> :: items != [] && Serialize(items) == row.order_items)
    && NumericText(row.total_amount)
  }

  /** Ids increase along the table and stay below nextId; every row is
      stored well. */
  ghost predicate TableWell(rows: seq<Order<string>>, nextId: nat)
  {
    && (forall i, j :: 0 <= i < j < |rows| ==> rows[i].id < rows[j].id)
    && (forall i :: 0 <= i < |rows| ==> rows[i].id < nextId)
    && (forall i :: 0 <= i < |rows| ==> StoredWell(rows[i]))
  }

  /** Appending a well-stored row under the next id keeps the table well. */
  lemma AppendKeepsTableWell(rows: seq<Order<string>>, nextId: nat, row: Order<string>)
    requires TableWell(rows, nextId) && row.id == nextId && StoredWell(row)
    ensures TableWell(rows + [row], nextId + 1)
  {
    AppendKeepsIds(rows, nextId, row);
    AppendKeepsStored(rows, row);
  }

  lemma AppendKeepsIds(rows: seq<Order<string>>, nextId: nat, row: Order<string>)
    requires forall i, j :: 0 <= i < j < |rows| ==> rows[i].id < rows[j].id
    requires forall i :: 0 <= i < |rows| ==> rows[i].id < nextId
    requires row.id == nextId
    ensures var grown := rows + [row];
      && (forall i, j :: 0 <= i < j < |grown| ==> grown[i].id < grown[j].id)
      && (forall i :: 0 <= i < |grown| ==> grown[i].id < nextId + 1)
  {
    var grown := rows + [row];
    assert forall i :: 0 <= i < |rows| ==> grown[i] == rows[i];
  }

  lemma AppendKeepsStored(rows: seq<Order<string>>, row: Order<string>)
    requires forall i :: 0 <= i < |rows| ==> StoredWell(rows[i])
    requires StoredWell(row)
    ensures forall i :: 0 <= i < |rows + [row]| ==> StoredWell((rows + [row])[i])
  {
    var grown := rows + [row];
    forall i | 0 <= i < |grown|
      ensures StoredWell(grown[i])
    {
      if i < |rows| {
        assert grown[i] == rows[i];
      }
    }
  }

  /** The orders table. */
  class OrderTable {
    var rows: seq<Order<string>>
    var nextId: nat

    ghost predicate Valid()
      reads this
    {
      TableWell(rows, nextId)
    }

    constructor ()
      ensures Valid() && rows == [] && nextId == 1
    {
      rows := [];
      nextId := 1;
    }

    /** POST at time `now`. `failure` is the store's answer to the INSERT:
        None when it succeeds, otherwise the thrown error's message. Nothing is
        inserted on any failure. */
    method Post(body: OrderBody, now: int, failure: Option<string>) returns (reply: PostReply)
      requires Valid()
      modifies this
      ensures Valid()
      ensures Rejection(body).Some? ==> reply == Rejection(body).value && rows == old(rows) && nextId == old(nextId)
      ensures Rejection(body).None? && failure.Some? ==>
                reply == PlaceFailed(failure.value) && rows == old(rows) && nextId == old(nextId)
      ensures Rejection(body).None? && failure.None? ==>
                && reply == Placed(old(nextId))
                && rows == old(rows) + [NewOrder(old(nextId), body, now)]
                && nextId == old(nextId) + 1
    {
      var errors := SchemaErrors(body);
      if errors != [] {
        return SchemaInvalid(errors);
      }
      if body.order_items.items == [] {
        return EmptyItems;
      }
      if failure.Some? {
        return PlaceFailed(failure.value);
      }
      var row := NewOrder(nextId, body, now);
      NewOrderStoredWell(nextId, body, now);
      AppendKeepsTableWell(rows, nextId, row);
      rows := rows + [row];
      reply := Placed(nextId);
      nextId := nextId + 1;
    }

    /** GET: every stored order, newest first, with its items parsed back.
        `failure` is the store's answer to the SELECT. */
    method List(failure: Option<string>) returns (reply: ListReply)
      requires Valid()
      ensures failure.Some? ==> reply == ListFailed(failure.value)
      ensures failure.None? ==> reply.Orders? && Some(reply.orders) == DecodeAll(ListOrder(rows))
      ensures reply.Orders? ==> |reply.orders| == |rows|
      ensures reply.Orders? ==> forall k :: 0 <= k < |reply.orders| ==> reply.orders[k].order_items != []
    {
      if failure.Some? {
        return ListFailed(failure.value);
      }
      var sorted := ListOrder(rows);
      forall k | 0 <= k < |sorted|
        ensures Parse(sorted[k].order_items).Some? && Parse(sorted[k].order_items).value != []
      {
        assert sorted[k] in rows;
        var items: seq<Item> :| items != [] && Serialize(items) == sorted[k].order_items;
        RoundTrip(items);
      }
      var decoded := DecodeAll(sorted);
      reply := Orders(decoded.value);
    }
  }
}
