/** The standalone `OrderStatus` enumeration of orderStatus.py. */
module OrderStatusEnum {
  import opened Wrappers
  import opened EnumLookup

  datatype OrderStatus = Pending | Assigned | InProgress | Delivered | Cancelled

  /** The position of a status in declaration order. */
  function Index(s: OrderStatus): (i: nat)
    ensures i < 5
  {
    match s
    case Pending => 0
    case Assigned => 1
    case InProgress => 2
    case Delivered => 3
    case Cancelled => 4
  }

  /** The members in declaration order: exactly five, each listed once. */
  function Members(): (ms: seq<OrderStatus>)
    ensures |ms| == 5
    ensures forall s: OrderStatus :: s in ms && ms[Index(s)] == s
    ensures forall i, j :: 0 <= i < j < |ms| ==> ms[i] != ms[j]
  {
    var ms := [Pending, Assigned, InProgress, Delivered, Cancelled];
    assert forall s: OrderStatus :: s in ms by {
      forall s: OrderStatus ensures s in ms {
        assert ms[Index(s)] == s;
      }
    }
    ms
  }

  /** `status.value`: the canonical tag. */
  function Tag(s: OrderStatus): string
  {
    match s
    case Pending => "pending"
    case Assigned => "assigned"
    case InProgress => "in_progress"
    case Delivered => "delivered"
    case Cancelled => "cancelled"
  }

  /** `OrderStatus(tag)`: the status whose tag is `tag`; `None` where Python raises ValueError. */
  function Parse(tag: string): (r: Option<OrderStatus>)
    ensures forall s: OrderStatus :: r == Some(s) <==> Tag(s) == tag
    ensures r.None? <==> tag !in {"pending", "assigned", "in_progress", "delivered", "cancelled"}
  {
    TagsDistinct();
    var r := FindByValue(Members(), Tag, tag);
    assert forall s: OrderStatus :: Tag(s) == tag ==> r == Some(s) by {
      forall s: OrderStatus | Tag(s) == tag ensures r == Some(s) {
        FindByValueOfMember(Members(), Tag, Index(s));
      }
    }
    r
  }

  /** The five tags are pairwise distinct: encoding is injective. */
  lemma TagsDistinct()
    ensures DistinctValues(Members(), Tag)
    ensures forall a: OrderStatus, b: OrderStatus :: Tag(a) == Tag(b) ==> a == b
  {
  }

  /** Decoding the tag of a status gives back that status. */
  lemma ParseTag(s: OrderStatus)
    ensures Parse(Tag(s)) == Some(s)
  {
  }
}

/**
  The two `OrderStatus` declarations (QuickCart.py and orderStatus.py) are
  interchangeable: pairing variants by name preserves tags, is a bijection,
  and commutes with decoding.
*/
module OrderStatusAgreement {
  import opened Wrappers
  import QuickCart
  import Standalone = OrderStatusEnum

  /** Pair each QuickCart.py variant with the orderStatus.py variant of the same name. */
  function ToStandalone(s: QuickCart.OrderStatus): (t: Standalone.OrderStatus)
    ensures Standalone.Tag(t) == QuickCart.StatusTag(s)
    ensures Standalone.Index(t) == QuickCart.StatusIndex(s)
  {
    match s
    case Pending => Standalone.Pending
    case Assigned => Standalone.Assigned
    case InProgress => Standalone.InProgress
    case Delivered => Standalone.Delivered
    case Cancelled => Standalone.Cancelled
  }

  /** The inverse pairing. */
  function FromStandalone(t: Standalone.OrderStatus): (s: QuickCart.OrderStatus)
    ensures QuickCart.StatusTag(s) == Standalone.Tag(t)
    ensures ToStandalone(s) == t
  {
    match t
    case Pending => QuickCart.Pending
    case Assigned => QuickCart.Assigned
    case InProgress => QuickCart.InProgress
    case Delivered => QuickCart.Delivered
    case Cancelled => QuickCart.Cancelled
  }

  /** Variant for variant the declarations agree: same order, same tags, a bijection. */
  lemma SameMembers()
    ensures forall i :: 0 <= i < 5 ==>
      ToStandalone(QuickCart.StatusMembers()[i]) == Standalone.Members()[i]
    ensures forall s :: FromStandalone(ToStandalone(s)) == s
  {
  }

  /** Tag for tag they agree: decoding any string gives corresponding results, failures included. */
  lemma SameDecoding(tag: string)
    ensures Standalone.Parse(tag) ==
      match QuickCart.ParseStatus(tag)
      case None => None
      case Some(s) => Some(ToStandalone(s))
  {
  }
}
