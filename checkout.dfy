/*
  The browser's checkout controller (app/js/controllers/CheckoutController.js):
  the American Express check on the card number and the guard that lets an
  order be submitted at most once. The alert, navigation and the
  asynchronous order submission are recorded as counts.
*/
module Checkout {
  import opened Js

  /** `/^(34|37)/.test(cardNumber)`: the number starts with 34 or 37. */
  function IsAmericanExpress(cardNumber: string): (b: bool)
    ensures b <==> |cardNumber| >= 2 && (cardNumber[..2] == "34" || cardNumber[..2] == "37")
  {
    |cardNumber| >= 2 && cardNumber[0] == '3' && (cardNumber[1] == '4' || cardNumber[1] == '7')
  }

  /** The check accepts exactly the numbers that start with "34" or "37". */
  lemma AmericanExpressIff(cardNumber: string)
    ensures IsAmericanExpress(cardNumber) <==> exists rest :: cardNumber == "34" + rest || cardNumber == "37" + rest
  {
    if IsAmericanExpress(cardNumber) {
      var rest := cardNumber[2..];
      assert cardNumber == [cardNumber[0], cardNumber[1]] + rest;
    }
    if exists rest :: cardNumber == "34" + rest || cardNumber == "37" + rest {
      var rest :| cardNumber == "34" + rest || cardNumber == "37" + rest;
      assert cardNumber[0] == '3' && (cardNumber[1] == '4' || cardNumber[1] == '7');
    }
  }

  /** Only the first two digits matter: appending to a number never changes
      the verdict once it has two characters. */
  lemma AmericanExpressPrefix(cardNumber: string, more: string)
    requires |cardNumber| >= 2
    ensures IsAmericanExpress(cardNumber + more) == IsAmericanExpress(cardNumber)
  {
    assert (cardNumber + more)[..2] == cardNumber[..2];
  }

  /** The controller's state: whether an order is being submitted, how many
      times the order was submitted, how many refusals were shown. */
  datatype CheckoutState = CheckoutState(submitting: bool, submissions: nat, alerts: nat)

  /** The state the controller starts in. */
  const Initial: CheckoutState := CheckoutState(false, 0, 0)

  /** `purchase()` with the customer's card number. */
  function PurchaseStep(s: CheckoutState, cardNumber: string): (t: CheckoutState)
    ensures s.submitting ==> t == s
    ensures !s.submitting && IsAmericanExpress(cardNumber) ==>
      t == s.(alerts := s.alerts + 1)
    ensures !s.submitting && !IsAmericanExpress(cardNumber) ==>
      t == s.(submitting := true, submissions := s.submissions + 1)
  {
    if s.submitting then s
    else if IsAmericanExpress(cardNumber) then CheckoutState(false, s.submissions, s.alerts + 1)
    else CheckoutState(true, s.submissions + 1, s.alerts)
  }

  /** Repeated purchases, with the card number each was made with. */
  function Run(s: CheckoutState, cards: seq<string>): CheckoutState
    decreases |cards|
  {
    if cards == [] then s else Run(PurchaseStep(s, cards[0]), cards[1..])
  }

  /** Once submitting, further purchases change nothing. */
  lemma {:induction false} SubmittingIsFinal(s: CheckoutState, cards: seq<string>)
    requires s.submitting
    ensures Run(s, cards) == s
    decreases |cards|
  {
    if cards != [] {
      SubmittingIsFinal(PurchaseStep(s, cards[0]), cards[1..]);
    }
  }

  /** Before submitting, purchases with American Express cards only add
      refusals. */
  lemma {:induction false} AmericanExpressOnly(s: CheckoutState, cards: seq<string>)
    requires !s.submitting
    requires forall i :: 0 <= i < |cards| ==> IsAmericanExpress(cards[i])
    ensures Run(s, cards) == s.(alerts := s.alerts + |cards|)
    decreases |cards|
  {
    if cards != [] {
      AmericanExpressOnly(PurchaseStep(s, cards[0]), cards[1..]);
    }
  }

  /** From the initial state the order is submitted at most once, and it is
      submitted exactly when some purchase used a card that is not American
      Express; it is then still marked as submitting. */
  lemma {:induction false} SubmitsAtMostOnce(s: CheckoutState, cards: seq<string>)
    requires !s.submitting
    ensures Run(s, cards).submissions <= s.submissions + 1
    ensures Run(s, cards).submissions == s.submissions + 1
        <==> exists i :: 0 <= i < |cards| && !IsAmericanExpress(cards[i])
    ensures Run(s, cards).submitting <==> Run(s, cards).submissions == s.submissions + 1
    decreases |cards|
  {
    if cards != [] {
      var t := PurchaseStep(s, cards[0]);
      if t.submitting {
        SubmittingIsFinal(t, cards[1..]);
      } else {
        SubmitsAtMostOnce(t, cards[1..]);
        if exists i :: 0 <= i < |cards[1..]| && !IsAmericanExpress(cards[1..][i]) {
          var i :| 0 <= i < |cards[1..]| && !IsAmericanExpress(cards[1..][i]);
          assert !IsAmericanExpress(cards[i + 1]);
        }
        if exists i :: 0 <= i < |cards| && !IsAmericanExpress(cards[i]) {
          var i :| 0 <= i < |cards| && !IsAmericanExpress(cards[i]);
          assert i > 0 && cards[1..][i - 1] == cards[i];
        }
      }
    }
  }

  /** The controller's scope. */
  class CheckoutController {
    var restaurantId: Value
    var submitting: bool
    /** Calls of `cart.submitOrder()`. */
    var submissions: nat
    /** Refusals shown with `alert`. */
    var alerts: nat

    function State(): CheckoutState
      reads this
    {
      CheckoutState(submitting, submissions, alerts)
    }

    /** The controller starts not submitting, for the cart's restaurant. */
    constructor (cartRestaurantId: Value)
      ensures restaurantId == cartRestaurantId
      ensures State() == Initial
    {
      restaurantId := cartRestaurantId;
      submitting := false;
      submissions := 0;
      alerts := 0;
    }

    /** `$scope.purchase()`: refuse while submitting; refuse American Express
        with an alert; otherwise mark submitting and submit the order. */
    method Purchase(cardNumber: string)
      modifies this
      ensures State() == PurchaseStep(old(State()), cardNumber)
      ensures restaurantId == old(restaurantId)
    {
      if submitting {
        return;
      }
      if IsAmericanExpress(cardNumber) {
        alerts := alerts + 1;
        submitting := false;
        return;
      }
      submitting := true;
      submissions := submissions + 1;
    }
  }
}
