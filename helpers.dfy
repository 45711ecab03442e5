/** `src/helpers.py`: the integer length validator and the `cached_method`
    decorator over a key-value cache store. */
module Helpers {
  import opened Wrappers
  import opened Exceptions
  import Text

  /** Python truthiness of an optional integer bound: None and 0 are false. */
  predicate Truthy(bound: Option<int>) {
    bound.Some? && bound.value != 0
  }

  /** The fixed part of the validator's message ("wrong order number; your
      order must consist of 7 digits"). */
  const ORDER_NUMBER_HINT: string := " - неправильный номер заказа. Ваш заказ должен состоять из 7 цифр"

  /** The message the validator's ValidationError carries: `str(value)`
      followed by the fixed hint. */
  function OrderNumberError(value: int): (r: string)
    ensures Text.DecimalString(value) <= r
    ensures r[|Text.DecimalString(value)|..] == ORDER_NUMBER_HINT
    ensures Text.ParseInt(r[..|r| - |ORDER_NUMBER_HINT|]) == Some(value)
  {
    var d := Text.DecimalString(value);
    Text.ParseIntRoundTrip(value);
    assert (d + ORDER_NUMBER_HINT)[..|d|] == d;
    d + ORDER_NUMBER_HINT
  }

  /** The message names the rejected value: distinct values give distinct messages. */
  lemma OrderNumberErrorNamesValue(v: int, w: int)
    ensures OrderNumberError(v) == OrderNumberError(w) ==> v == w
  {
    // Both values parse back from the same prefix (the contract of `OrderNumberError`).
  }

  /** `IntegerLengthValidator`: bounds on the length of `str(value)`. */
  datatype IntegerLengthValidator = IntegerLengthValidator(minLength: Option<int>, maxLength: Option<int>) {

    /** `__call__(value)`: raises ValidationError when `str(value)` is shorter
        than a truthy `min_length` or longer than a truthy `max_length`; the
        `text` of `Raised` is the message the ValidationError carries. */
    function Call(value: int): (c: Completion)
      ensures c.Raised? ==> c.text == OrderNumberError(value)
      ensures c.Returned? <==>
                (!Truthy(minLength) || minLength.value <= |Text.DecimalString(value)|) &&
                (!Truthy(maxLength) || |Text.DecimalString(value)| <= maxLength.value)
    {
      var length := |Text.DecimalString(value)|;
      var minLengthCond := Truthy(minLength) && length < minLength.value;
      var maxLengthCond := Truthy(maxLength) && length > maxLength.value;
      if minLengthCond || maxLengthCond then Raised(OrderNumberError(value)) else Returned
    }
  }

  /** `IntegerLengthValidator(min_length, max_length, length=length)`: each
      bound is `length or <bound>`, so a truthy `length` fixes both. */
  function NewIntegerLengthValidator(minLength: Option<int>, maxLength: Option<int>, length: Option<int>): (v: IntegerLengthValidator)
    ensures Truthy(length) ==> v.minLength == length && v.maxLength == length
    ensures !Truthy(length) ==> v.minLength == minLength && v.maxLength == maxLength
  {
    IntegerLengthValidator(if Truthy(length) then length else minLength,
                           if Truthy(length) then length else maxLength)
  }

  /** The `order_id` validator of the event serializer: `IntegerLengthValidator(length=7)`. */
  function OrderIdValidator(): (v: IntegerLengthValidator)
    ensures v.minLength == Some(7) && v.maxLength == Some(7)
  {
    NewIntegerLengthValidator(None, None, Some(7))
  }

  /** The order validator accepts exactly the values whose string form has
      seven characters. */
  lemma OrderIdLength(value: int)
    ensures OrderIdValidator().Call(value).Returned? <==> |Text.DecimalString(value)| == 7
  {
  }

  /** ... which are the seven-digit non-negative values and, because the sign
      is counted, the negative values with six digits. */
  lemma OrderIdRange(value: int)
    ensures OrderIdValidator().Call(value).Returned? <==>
              (1_000_000 <= value < 10_000_000 || -1_000_000 < value <= -100_000)
  {
    assert Text.Pow10(5) == 100_000;
    assert Text.Pow10(7) == 10 * Text.Pow10(6) == 10_000_000;
    OrderIdLength(value);
    if value < 0 {
      Text.DecimalLengthExact(-value, 6);
    } else {
      Text.DecimalLengthExact(value, 7);
    }
  }

  /** Bounds that are None or 0 are not enforced: such a validator accepts all values. */
  lemma FalsyBoundsAcceptAll(minLength: Option<int>, maxLength: Option<int>, length: Option<int>, value: int)
    requires !Truthy(minLength) && !Truthy(maxLength) && !Truthy(length)
    ensures NewIntegerLengthValidator(minLength, maxLength, length).Call(value) == Returned
  {
  }

  /** The Django cache store, as a key-value map. Entries do not expire here. */
  class Cache<K(==), V> {
    var entries: map<K, V>

    constructor()
      ensures entries == map[]
    {
      entries := map[];
    }
  }

  /** The wrapper `cached_method(key_function, timeout)` puts around `func`,
      called with `args`. `func` is a function of its arguments whose None
      result is Python's None; `called` tells whether the wrapper invoked it.
      Pickling is the identity here. */
  method CachedCall<A, K(==), V>(cache: Cache<K, V>, cacheEnabled: bool, keyFunction: A -> K, func: A -> Option<V>, args: A)
    returns (data: Option<V>, called: bool)
    modifies cache
    // With caching off the function runs and the cache is neither read nor written.
    ensures !cacheEnabled ==> called && data == func(args) && cache.entries == old(cache.entries)
    // A hit returns the stored value without running the function.
    ensures cacheEnabled && keyFunction(args) in old(cache.entries) ==>
              !called && data == Some(old(cache.entries)[keyFunction(args)]) && cache.entries == old(cache.entries)
    // A miss runs the function once and stores a result that is not None under the key.
    ensures cacheEnabled && keyFunction(args) !in old(cache.entries) ==>
              called && data == func(args) &&
              cache.entries == if data.Some? then old(cache.entries)[keyFunction(args) := data.value] else old(cache.entries)
  {
    if !cacheEnabled {
      return func(args), true;
    }
    var cacheKey := keyFunction(args);
    if cacheKey in cache.entries {
      return Some(cache.entries[cacheKey]), false;
    }
    data, called := func(args), true;
    if data.Some? {
      cache.entries := cache.entries[cacheKey := data.value];
    }
  }

  /** Two calls with the same arguments on an empty, enabled cache: both return
      what `func` returns, and the second runs `func` again only when the first
      result was None (which is never stored). */
  method RepeatedCall<A, K(==), V>(keyFunction: A -> K, func: A -> Option<V>, args: A)
    returns (first: Option<V>, second: Option<V>, calledAgain: bool)
    ensures first == func(args) && second == first
    ensures calledAgain <==> first.None?
  {
    var cache := new Cache<K, V>();
    var called;
    first, called := CachedCall(cache, true, keyFunction, func, args);
    second, calledAgain := CachedCall(cache, true, keyFunction, func, args);
  }
}
