/**
 * The text of the Telegram notifications sent for a new order and for a
 * bulk order: HTML escaping of the customer-supplied fields, the payment
 * label, the optional colour and balance lines, the batch totals and the
 * numbered item list.
 *
 * Sending the message (`fetch` to the Bot API) is not modelled. Number
 * formatting with `toLocaleString('en-IN')` and date formatting in the
 * Asia/Kolkata time zone are parameters `fmt` and `fmtDate`.
 */
module Telegram {
  import opened Wrappers
  import opened JsString
  import opened Schema

  // ---------------------------------------------------------------------
  // escapeHtml
  // ---------------------------------------------------------------------

  /** The five characters `escapeHtml` replaces. */
  const Specials: set<char> := {'&', '<', '>', '"', '\''}

  /** The entity `escapeHtml` writes for a special character. */
  function Entity(c: char): string {
    if c == '&' then "&amp;"
    else if c == '<' then "&lt;"
    else if c == '>' then "&gt;"
    else if c == '"' then "&quot;"
    else if c == '\'' then "&#39;"
    else [c]
  }

  /** `escapeHtml`: five global replacements, `&` first. */
  function EscapeHtml(text: string): string {
    ReplaceAll(ReplaceAll(ReplaceAll(ReplaceAll(ReplaceAll(text, '&', "&amp;"), '<', "&lt;"), '>', "&gt;"),
                          '"', "&quot;"), '\'', "&#39;")
  }

  /** `s` with exactly the characters in `written` written as entities: the
      state of the text between two replacements of the chain. */
  function EscapeSome(s: string, written: set<char>): string {
    if s == [] then [] else (if s[0] in written then Entity(s[0]) else [s[0]]) + EscapeSome(s[1..], written)
  }

  lemma {:induction false} EscapeNone(s: string, written: set<char>)
    requires forall i :: 0 <= i < |s| ==> s[i] !in written
    ensures EscapeSome(s, written) == s
  {
    if s != [] {
      EscapeNone(s[1..], written);
    }
  }

  /** One replacement of the escape chain writes the entity of one more
      character, provided no entity written so far contains that character. */
  lemma {:induction false} EscapeStep(s: string, written: set<char>, e: char)
    requires e in Specials && e !in written
    requires forall x :: x in written ==> e !in Entity(x)
    ensures ReplaceAll(EscapeSome(s, written), e, Entity(e)) == EscapeSome(s, written + {e})
  {
    if s != [] {
      var piece := if s[0] in written then Entity(s[0]) else [s[0]];
      ReplaceAllAppend(piece, EscapeSome(s[1..], written), e, Entity(e));
      EscapeStep(s[1..], written, e);
      if s[0] in written {
        ReplaceAllAbsent(piece, e, Entity(e));
      } else {
        assert [s[0]][1..] == [];
      }
    }
  }

  /** The replacement chain writes every special character as its entity
      and keeps every other character: it escapes character by character. */
  lemma EscapeHtmlCharwise(text: string)
    ensures EscapeHtml(text) == EscapeSome(text, Specials)
  {
    var s2 := EscapeAmpLt(text);
    var s4 := EscapeGtQuot(text, s2);
    EscapeApos(text, s4);
  }

  lemma EscapeAmpLt(text: string) returns (s2: string)
    ensures s2 == ReplaceAll(ReplaceAll(text, '&', "&amp;"), '<', "&lt;")
    ensures s2 == EscapeSome(text, {'&', '<'})
  {
    var w0: set<char> := {};
    EscapeNone(text, w0);
    EscapeStep(text, w0, '&');
    assert Entity('&') == "&amp;" && w0 + {'&'} == {'&'};
    var s1 := ReplaceAll(text, '&', "&amp;");
    assert '<' !in "&amp;";
    EscapeStep(text, {'&'}, '<');
    assert Entity('<') == "&lt;" && {'&'} + {'<'} == {'&', '<'};
    s2 := ReplaceAll(s1, '<', "&lt;");
  }

  lemma EscapeGtQuot(text: string, s2: string) returns (s4: string)
    requires s2 == EscapeSome(text, {'&', '<'})
    ensures s4 == ReplaceAll(ReplaceAll(s2, '>', "&gt;"), '"', "&quot;")
    ensures s4 == EscapeSome(text, {'&', '<', '>', '"'})
  {
    assert '>' !in "&amp;" && '>' !in "&lt;";
    EscapeStep(text, {'&', '<'}, '>');
    assert Entity('>') == "&gt;" && {'&', '<'} + {'>'} == {'&', '<', '>'};
    var s3 := ReplaceAll(s2, '>', "&gt;");
    assert '"' !in "&amp;" && '"' !in "&lt;" && '"' !in "&gt;";
    EscapeStep(text, {'&', '<', '>'}, '"');
    assert Entity('"') == "&quot;" && {'&', '<', '>'} + {'"'} == {'&', '<', '>', '"'};
    s4 := ReplaceAll(s3, '"', "&quot;");
  }

  lemma EscapeApos(text: string, s4: string)
    requires s4 == EscapeSome(text, {'&', '<', '>', '"'})
    ensures ReplaceAll(s4, '\'', "&#39;") == EscapeSome(text, Specials)
  {
    assert '\'' !in "&amp;" && '\'' !in "&lt;" && '\'' !in "&gt;" && '\'' !in "&quot;";
    EscapeStep(text, {'&', '<', '>', '"'}, '\'');
    assert Entity('\'') == "&#39;" && {'&', '<', '>', '"'} + {'\''} == Specials;
  }

  /** No character that could open a tag or close an attribute value. */
  predicate NoMarkup(t: string) {
    forall i :: 0 <= i < |t| ==> t[i] != '<' && t[i] != '>' && t[i] != '"' && t[i] != '\''
  }

  lemma {:induction false} EscapeSomeNoMarkup(s: string)
    ensures NoMarkup(EscapeSome(s, Specials))
  {
    if s != [] {
      EscapeSomeNoMarkup(s[1..]);
      var piece := if s[0] in Specials then Entity(s[0]) else [s[0]];
      assert NoMarkup(piece);
      assert EscapeSome(s, Specials) == piece + EscapeSome(s[1..], Specials);
    }
  }

  /** The escaped text contains no raw `<`, `>`, `"` or `'`. */
  lemma EscapeHtmlNoMarkup(text: string)
    ensures NoMarkup(EscapeHtml(text))
  {
    EscapeHtmlCharwise(text);
    EscapeSomeNoMarkup(text);
  }

  /** Text without any of the five special characters is left unchanged. */
  lemma EscapeHtmlPlain(text: string)
    requires forall i :: 0 <= i < |text| ==> text[i] !in Specials
    ensures EscapeHtml(text) == text
  {
    EscapeHtmlCharwise(text);
    EscapeNone(text, Specials);
  }

  /** Decoding the five entities, `&amp;` last, as a reader of the message
      would. */
  function UnescapeHtml(html: string): string {
    ReplaceStr(ReplaceStr(ReplaceStr(ReplaceStr(ReplaceStr(html, "&#39;", '\''), "&quot;", '"'), "&gt;", '>'),
                          "&lt;", '<'), "&amp;", '&')
  }

  /** Decoding one entity while `&` is still written as an entity turns
      exactly the occurrences of that entity back into the character: every
      raw `&` starts an entity, and the five entities differ at their second
      character. */
  lemma {:induction false} UnescapeStep(s: string, written: set<char>, e: char)
    requires '&' in written && e in written && written <= Specials
    ensures ReplaceStr(EscapeSome(s, written), Entity(e), e) == EscapeSome(s, written - {e})
  {
    if s != [] {
      var pat := Entity(e);
      var rest := EscapeSome(s[1..], written);
      UnescapeStep(s[1..], written, e);
      if s[0] == e {
        ReplaceStrAtMatch(pat, rest, e);
      } else if s[0] in written {
        EntityShape(s[0], e);
        ReplaceStrMismatch(Entity(s[0]), rest, pat, e);
      } else {
        ReplaceStrSkip([s[0]], rest, pat, e);
      }
    }
  }

  /** Two different entities start with `&`, contain no other `&`, and
      differ at their second character. */
  lemma EntityShape(a: char, b: char)
    requires a in Specials && b in Specials && a != b
    ensures |Entity(a)| >= 2 && |Entity(b)| >= 2 && Entity(b)[0] == '&'
    ensures Entity(a)[1] != Entity(b)[1] && '&' !in Entity(a)[1..]
  {
  }

  /** Escaping loses nothing: decoding the entities gives the text back,
      because `&` is escaped first and decoded last. */
  lemma EscapeRoundTrip(text: string)
    ensures UnescapeHtml(EscapeHtml(text)) == text
  {
    EscapeHtmlCharwise(text);
    var w4, w3, w2, w1 := {'&', '<', '>', '"'}, {'&', '<', '>'}, {'&', '<'}, {'&'};
    UnescapeStep(text, Specials, '\'');
    assert Specials - {'\''} == w4;
    var u1 := ReplaceStr(EscapeSome(text, Specials), "&#39;", '\'');
    assert u1 == EscapeSome(text, w4);
    UnescapeStep(text, w4, '"');
    assert w4 - {'"'} == w3;
    var u2 := ReplaceStr(u1, "&quot;", '"');
    assert u2 == EscapeSome(text, w3);
    UnescapeStep(text, w3, '>');
    assert w3 - {'>'} == w2;
    var u3 := ReplaceStr(u2, "&gt;", '>');
    assert u3 == EscapeSome(text, w2);
    UnescapeStep(text, w2, '<');
    assert w2 - {'<'} == w1;
    var u4 := ReplaceStr(u3, "&lt;", '<');
    assert u4 == EscapeSome(text, w1);
    UnescapeStep(text, w1, '&');
    assert w1 - {'&'} == {};
    EscapeNone(text, {});
  }

  // ---------------------------------------------------------------------
  // Pieces shared by both messages
  // ---------------------------------------------------------------------

  /** The payment label: `full` is a full payment, anything else an advance. */
  function PaymentLabel(paymentType: string): (r: string)
    ensures r == "Full Payment" <==> paymentType == "full"
    ensures r == "Advance Payment" <==> paymentType != "full"
  {
    if paymentType == "full" then "Full Payment" else "Advance Payment"
  }

  /** JavaScript truthiness of an optional colour: present and non-empty. */
  predicate HasColor(color: Option<string>) {
    color.Some? && color.value != ""
  }

  // ---------------------------------------------------------------------
  // formatOrderMessage
  // ---------------------------------------------------------------------

  function BalanceLine(amount: string): string {
    "<b>Remaining Balance:</b> \U{20B9}" + amount
  }

  function ColorLine(color: string): string {
    "<b>Color:</b> " + color
  }

  /** The product block: title and the storage line. */
  function OrderHead(o: Order): (lines: seq<string>)
    ensures |lines| == 5
  {
    ["<b>NEW ORDER RECEIVED</b>", "", "<b>Product Details:</b>",
     "\U{2022} " + EscapeHtml(o.productName),
     "\U{2022} Storage: " + EscapeHtml(o.storage)]
  }

  /** `colorInfo`: a colour line only for a truthy colour. */
  function OrderColor(o: Order): (lines: seq<string>)
    ensures |lines| == if HasColor(o.color) then 1 else 0
  {
    if HasColor(o.color) then [ColorLine(EscapeHtml(o.color.value))] else []
  }

  /** The customer and address blocks and the payment heading, shared by
      both messages. */
  function CustomerLines(customerName: string, phone: string, address: string, pinCode: string): (lines: seq<string>)
    ensures |lines| == 10 && lines[0] == ""
  {
    ["", "<b>Customer Information:</b>",
     "\U{2022} Name: " + EscapeHtml(customerName),
     "\U{2022} Phone: " + EscapeHtml(phone),
     "", "<b>Delivery Address:</b>",
     EscapeHtml(address),
     "PIN Code: " + EscapeHtml(pinCode),
     "", "<b>Payment Details:</b>"]
  }

  /** The customer block and the first two payment lines. */
  function OrderMiddle(o: Order, fmt: int -> string): (lines: seq<string>)
    ensures |lines| == 12 && lines[0] == "" && lines[11] == PaidLine(fmt(o.paidAmount))
  {
    CustomerLines(o.customerName, o.phone, o.address, o.pinCode) +
    ["\U{2022} Full Price: \U{20B9}" + fmt(o.fullPrice), PaidLine(fmt(o.paidAmount))]
  }

  function PaidLine(amount: string): string {
    "\U{2022} Paid Amount: \U{20B9}" + amount
  }

  /** `balanceInfo`: a balance line only for a positive balance. */
  function OrderBalance(o: Order, fmt: int -> string): (lines: seq<string>)
    ensures |lines| == if o.remainingBalance > 0 then 1 else 0
  {
    if o.remainingBalance > 0 then [BalanceLine(fmt(o.remainingBalance))] else []
  }

  function PaymentTypeLine(paymentType: string): (line: string)
    ensures |line| >= 1 && line[0] == '\U{2022}'
  {
    "\U{2022} Payment Type: " + PaymentLabel(paymentType)
  }

  /** The rest of the payment block, the date, the id and the footer. */
  function OrderTail(o: Order, fmtDate: string -> string): (lines: seq<string>)
    ensures |lines| == 9 && lines[8] != []
  {
    [PaymentTypeLine(o.paymentType),
     "\U{2022} Screenshot: " + EscapeHtml(o.paymentScreenshot),
     "", "<b>Order Date:</b> " + fmtDate(o.createdAt),
     "", "<b>Order ID:</b> " + EscapeHtml(o.id),
     "", "---", "Please verify the payment screenshot and process the order."]
  }

  /** The lines of the single-order message template. */
  function OrderLines(o: Order, fmt: int -> string, fmtDate: string -> string): seq<string> {
    OrderHead(o) + OrderColor(o) + OrderMiddle(o, fmt) + OrderBalance(o, fmt) + OrderTail(o, fmtDate)
  }

  /** `formatOrderMessage`: the template, which opens and closes with a
      newline, trimmed. */
  function OrderMessage(o: Order, fmt: int -> string, fmtDate: string -> string): string {
    Trim("\n" + Join(OrderLines(o, fmt, fmtDate), "\n") + "\n")
  }

  /** Trimming removes only the template's opening and closing newlines. */
  lemma OrderMessageTrim(o: Order, fmt: int -> string, fmtDate: string -> string)
    ensures OrderMessage(o, fmt, fmtDate) == Join(OrderLines(o, fmt, fmtDate), "\n")
  {
    var h, t := OrderHead(o), OrderTail(o, fmtDate);
    var lines := h + OrderColor(o) + OrderMiddle(o, fmt) + OrderBalance(o, fmt) + t;
    assert lines[0] == h[0];
    assert lines[|lines| - 1] == t[8];
    assert t[8] == "Please verify the payment screenshot and process the order.";
    TrimJoinedTemplate(lines, "\n");
  }

  /** The message has a colour line, right after the storage line, exactly
      for a truthy colour, and a balance line, right after the paid amount,
      exactly for a positive balance. */
  lemma OrderLinesShape(o: Order, fmt: int -> string, fmtDate: string -> string)
    ensures var lines := OrderLines(o, fmt, fmtDate);
      var c := if HasColor(o.color) then 1 else 0;
      var b := if o.remainingBalance > 0 then 1 else 0;
      && |lines| == 26 + c + b
      && (lines[5] == ColorLine(EscapeHtml(o.color.GetOr(""))) <==> HasColor(o.color))
      && lines[16 + c] == PaidLine(fmt(o.paidAmount))
      && (lines[17 + c] == BalanceLine(fmt(o.remainingBalance)) <==> o.remainingBalance > 0)
      && lines[17 + c + b] == PaymentTypeLine(o.paymentType)
  {
    var h, cl, m, bl, t := OrderHead(o), OrderColor(o), OrderMiddle(o, fmt), OrderBalance(o, fmt), OrderTail(o, fmtDate);
    TemplateIndices(h, cl, m, bl, t);
    if |cl| == 0 {
      assert ColorLine(EscapeHtml(o.color.GetOr("")))[0] == '<';
    }
    if |bl| == 0 {
      assert t[0][0] == '\U{2022}';
      assert BalanceLine(fmt(o.remainingBalance))[0] == '<';
    }
  }

  /** Where the lines of the order template land: a five-line head, an
      optional colour line, a twelve-line middle, an optional balance line
      and the tail. */
  lemma TemplateIndices(h: seq<string>, cl: seq<string>, m: seq<string>, bl: seq<string>, t: seq<string>)
    requires |h| == 5 && |cl| <= 1 && |m| == 12 && |bl| <= 1 && |t| >= 1
    ensures var lines := h + cl + m + bl + t;
      && |lines| == 17 + |cl| + |bl| + |t|
      && lines[5] == (if |cl| == 1 then cl[0] else m[0])
      && lines[16 + |cl|] == m[11]
      && lines[17 + |cl|] == (if |bl| == 1 then bl[0] else t[0])
      && lines[17 + |cl| + |bl|] == t[0]
  {
  }

  // ---------------------------------------------------------------------
  // formatBatchOrderMessage
  // ---------------------------------------------------------------------

  /** `orders.reduce((sum, order) => sum + order.paidAmount, 0)` */
  function TotalPaid(orders: seq<Order>): int {
    if orders == [] then 0 else TotalPaid(orders[..|orders| - 1]) + orders[|orders| - 1].paidAmount
  }

  /** `orders.reduce((sum, order) => sum + order.remainingBalance, 0)` */
  function TotalBalance(orders: seq<Order>): int {
    if orders == [] then 0 else TotalBalance(orders[..|orders| - 1]) + orders[|orders| - 1].remainingBalance
  }

  /** The sum of the orders' full prices, which the message does not print. */
  function TotalFullPrice(orders: seq<Order>): int {
    if orders == [] then 0 else TotalFullPrice(orders[..|orders| - 1]) + orders[|orders| - 1].fullPrice
  }

  /** When each order's amounts add up, the total paid and the total balance
      the message prints add up to the full price of the whole batch. */
  lemma {:induction false} BatchTotalsAddUp(orders: seq<Order>)
    requires forall i :: 0 <= i < |orders| ==> orders[i].fullPrice == orders[i].paidAmount + orders[i].remainingBalance
    ensures TotalPaid(orders) + TotalBalance(orders) == TotalFullPrice(orders)
  {
    if orders != [] {
      BatchTotalsAddUp(orders[..|orders| - 1]);
    }
  }

  /** The totals add up over the concatenation of two batches. */
  lemma {:induction false} BatchTotalsAppend(a: seq<Order>, b: seq<Order>)
    ensures TotalPaid(a + b) == TotalPaid(a) + TotalPaid(b)
    ensures TotalBalance(a + b) == TotalBalance(a) + TotalBalance(b)
  {
    if b == [] {
      assert a + b == a;
    } else {
      assert (a + b)[..|a + b| - 1] == a + b[..|b| - 1];
      BatchTotalsAppend(a, b[..|b| - 1]);
    }
  }

  /** ` (colour)` after a truthy colour, nothing otherwise. */
  function ColorSuffix(color: Option<string>): (suffix: string)
    ensures suffix == "" <==> !HasColor(color)
  {
    if HasColor(color) then " (" + EscapeHtml(color.value) + ")" else ""
  }

  /** The line for the order at position `n` (counting from one). */
  function ItemLine(n: nat, o: Order): string {
    NatToString(n) + ". " + ItemText(o)
  }

  function ItemText(o: Order): string {
    EscapeHtml(o.productName) + " - " + EscapeHtml(o.storage) + ColorSuffix(o.color)
  }

  /** `orders.map((order, index) => ...)`: one line per order. */
  function ItemLines(orders: seq<Order>): (lines: seq<string>)
    ensures |lines| == |orders|
    ensures forall i :: 0 <= i < |orders| ==> lines[i] == ItemLine(i + 1, orders[i])
  {
    seq(|orders|, i requires 0 <= i < |orders| => ItemLine(i + 1, orders[i]))
  }

  /** Each item line opens with its position in the batch: the digits in
      front of its first `.` read back as `i + 1`. */
  lemma ItemNumbering(orders: seq<Order>, i: int)
    requires 0 <= i < |orders|
    ensures var line := ItemLines(orders)[i];
      && '.' in line
      && AllDigits(line[..IndexOf(line, '.')])
      && DecimalValue(line[..IndexOf(line, '.')]) == i + 1
  {
    NumberedLine(i + 1, ItemText(orders[i]));
  }

  lemma NumberedLine(n: nat, text: string)
    ensures var line := NatToString(n) + ". " + text;
      && '.' in line
      && AllDigits(line[..IndexOf(line, '.')])
      && DecimalValue(line[..IndexOf(line, '.')]) == n
  {
    var digits := NatToString(n);
    var rest := " " + text;
    var line := digits + ". " + text;
    assert line == digits + ['.'] + rest;
    assert '.' !in digits by {
      forall k | 0 <= k < |digits| ensures digits[k] != '.' {
        assert IsDigit(digits[k]);
      }
    }
    IndexOfAfter(digits, '.', rest);
    assert line[..|digits|] == digits;
    DecimalValueOfNatToString(n);
  }

  function TotalBalanceLine(amount: string): (line: string)
    ensures |line| >= 1 && line[0] == '<'
  {
    "<b>Total Remaining Balance:</b> \U{20B9}" + amount
  }

  function TotalItemsLine(n: nat): string {
    "\U{2022} Total Items: " + NatToString(n)
  }

  function TotalPaidLine(amount: string): string {
    "\U{2022} Total Paid: \U{20B9}" + amount
  }

  /** The summary, customer and address blocks and the total paid; customer
      details come from the first order. */
  function BatchHead(orders: seq<Order>, fmt: int -> string): (lines: seq<string>)
    requires orders != []
    ensures |lines| == 16
    ensures lines[0] == "<b>NEW BULK ORDER RECEIVED</b>"
    ensures lines[3] == TotalItemsLine(|orders|) && lines[4] == Join(ItemLines(orders), "\n")
    ensures lines[15] == TotalPaidLine(fmt(TotalPaid(orders)))
  {
    var first := orders[0];
    ["<b>NEW BULK ORDER RECEIVED</b>", "", "<b>Order Summary:</b>", TotalItemsLine(|orders|),
     Join(ItemLines(orders), "\n")] +
    CustomerLines(first.customerName, first.phone, first.address, first.pinCode) +
    [TotalPaidLine(fmt(TotalPaid(orders)))]
  }

  /** A total balance line only for a positive total balance. */
  function BatchBalance(orders: seq<Order>, fmt: int -> string): (lines: seq<string>)
    ensures |lines| == if TotalBalance(orders) > 0 then 1 else 0
  {
    if TotalBalance(orders) > 0 then [TotalBalanceLine(fmt(TotalBalance(orders)))] else []
  }

  /** `orders.map(o => escapeHtml(o.id)).join(', ')` */
  function OrderIds(orders: seq<Order>): string {
    Join(seq(|orders|, i requires 0 <= i < |orders| => EscapeHtml(orders[i].id)), ", ")
  }

  /** The payment type and screenshot of the first order, the date, the ids
      and the footer. */
  function BatchTail(orders: seq<Order>, fmtDate: string -> string): (lines: seq<string>)
    requires orders != []
    ensures |lines| == 10 && lines[9] != []
    ensures lines[0] == PaymentTypeLine(orders[0].paymentType)
  {
    var first := orders[0];
    [PaymentTypeLine(first.paymentType),
     "\U{2022} Screenshot: " + EscapeHtml(first.paymentScreenshot),
     "", "<b>Order Date:</b> " + fmtDate(first.createdAt),
     "", "<b>Order IDs:</b>",
     OrderIds(orders),
     "", "---", "Please verify the payment screenshot and process the orders."]
  }

  /** The lines of the bulk-order template. */
  function BatchLines(orders: seq<Order>, fmt: int -> string, fmtDate: string -> string): seq<string>
    requires orders != []
  {
    BatchHead(orders, fmt) + BatchBalance(orders, fmt) + BatchTail(orders, fmtDate)
  }

  /** `formatBatchOrderMessage`: empty for no orders, else the template
      trimmed. */
  function BatchMessage(orders: seq<Order>, fmt: int -> string, fmtDate: string -> string): (message: string)
    ensures message == "" <==> orders == []
  {
    if orders == [] then ""
    else
      var lines := BatchLines(orders, fmt, fmtDate);
      BatchLinesEnds(orders, fmt, fmtDate);
      Trim("\n" + Join(lines, "\n") + "\n")
  }

  lemma BatchLinesEnds(orders: seq<Order>, fmt: int -> string, fmtDate: string -> string)
    requires orders != []
    ensures Join(BatchLines(orders, fmt, fmtDate), "\n") != []
    ensures Trim("\n" + Join(BatchLines(orders, fmt, fmtDate), "\n") + "\n") == Join(BatchLines(orders, fmt, fmtDate), "\n")
  {
    var h, bl, t := BatchHead(orders, fmt), BatchBalance(orders, fmt), BatchTail(orders, fmtDate);
    assert h[0][0] == '<';
    assert t[9][|t[9]| - 1] == '.';
    TemplateTrim(h, bl, t);
  }

  /** Trimming a bulk message removes only the template's opening and
      closing newlines. */
  lemma BatchMessageTrim(orders: seq<Order>, fmt: int -> string, fmtDate: string -> string)
    requires orders != []
    ensures BatchMessage(orders, fmt, fmtDate) == Join(BatchLines(orders, fmt, fmtDate), "\n")
  {
    BatchLinesEnds(orders, fmt, fmtDate);
  }

  /** A bulk message prints the order count, the numbered item lines and
      the total paid at fixed lines. */
  lemma BatchLinesShape(orders: seq<Order>, fmt: int -> string, fmtDate: string -> string)
    requires orders != []
    ensures var lines := BatchLines(orders, fmt, fmtDate);
      && |lines| == 26 + (if TotalBalance(orders) > 0 then 1 else 0)
      && lines[3] == TotalItemsLine(|orders|)
      && lines[4] == Join(ItemLines(orders), "\n")
      && lines[15] == TotalPaidLine(fmt(TotalPaid(orders)))
  {
    var h, bl, t := BatchHead(orders, fmt), BatchBalance(orders, fmt), BatchTail(orders, fmtDate);
    TemplateEnds(h, bl, t);
  }

  /** The line after the total paid is the total balance line exactly when
      the total balance is positive; the payment type follows. */
  lemma BatchBalanceShown(orders: seq<Order>, fmt: int -> string, fmtDate: string -> string)
    requires orders != []
    ensures var lines := BatchLines(orders, fmt, fmtDate);
      var b := if TotalBalance(orders) > 0 then 1 else 0;
      && (lines[16] == TotalBalanceLine(fmt(TotalBalance(orders))) <==> TotalBalance(orders) > 0)
      && lines[16 + b] == PaymentTypeLine(orders[0].paymentType)
  {
    var h, bl, t := BatchHead(orders, fmt), BatchBalance(orders, fmt), BatchTail(orders, fmtDate);
    OptionalLine(h, bl, t);
    if TotalBalance(orders) <= 0 {
      assert TotalBalanceLine(fmt(TotalBalance(orders)))[0] != PaymentTypeLine(orders[0].paymentType)[0];
    }
  }

  /** A template whose first line starts, and whose last line ends, with
      a visible character is trimmed back to its joined lines. */
  lemma TemplateTrim(h: seq<string>, o: seq<string>, t: seq<string>)
    requires |h| >= 1 && |t| >= 1 && h[0] != [] && t[|t| - 1] != []
    requires !IsWhitespace(h[0][0]) && !IsWhitespace(t[|t| - 1][|t[|t| - 1]| - 1])
    ensures var j := Join(h + o + t, "\n");
      j != [] && !IsWhitespace(j[0]) && !IsWhitespace(j[|j| - 1])
    ensures Trim("\n" + Join(h + o + t, "\n") + "\n") == Join(h + o + t, "\n")
  {
    TemplateEnds(h, o, t);
    TrimJoinedTemplate(h + o + t, "\n");
  }

  /** A template made of a head, optional lines and a tail starts with
      the head and ends with the tail. */
  lemma TemplateEnds(h: seq<string>, o: seq<string>, t: seq<string>)
    requires |h| >= 1 && |t| >= 1
    ensures var lines := h + o + t;
      && |lines| == |h| + |o| + |t|
      && (forall k :: 0 <= k < |h| ==> lines[k] == h[k])
      && lines[|lines| - 1] == t[|t| - 1]
  {
  }

  /** In `h + o + t` with at most one optional line `o`, the line after
      `h` is the optional one when present, and `t` starts after it. */
  lemma OptionalLine(h: seq<string>, o: seq<string>, t: seq<string>)
    requires |o| <= 1 && |t| >= 1
    ensures (h + o + t)[|h|] == if |o| == 1 then o[0] else t[0]
    ensures (h + o + t)[|h| + |o|] == t[0]
  {
  }
}
