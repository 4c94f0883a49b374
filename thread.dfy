/** ThreadSafeWrapper (lib/thread.py): a base class with a lock of its own
    and a guarded setter that only updates parameters a derived class has
    declared. Calls are sequential in this model, so the lock guards
    nothing and is kept only as the object it is. */
module ThreadSafe {
  import opened Common

  /** threading.Lock. */
  class Lock {
    constructor ()
    {
    }
  }

  /** The KeyError of an undeclared key, with the source's message. */
  function KeyNotFound(key: string): Error
  {
    KeyError("Key " + key + " not found in attributes.")
  }

  /** The effect of set_dependant_attr on the declared parameters, or None
      when the object has no `attributes` at all. */
  function SetAttr(attributes: Option<map<string, Param>>, key: string, value: Param): Result<map<string, Param>>
  {
    if attributes.Some? && key in attributes.value then Ok(attributes.value[key := value])
    else Err(KeyNotFound(key))
  }

  /** A declared key is set to the value and every other key keeps its
      value; no key is ever created; an undeclared key, or no attributes at
      all, is a KeyError. */
  lemma SetAttrSpec(attributes: Option<map<string, Param>>, key: string, value: Param)
    ensures SetAttr(attributes, key, value).Ok? <==> attributes.Some? && key in attributes.value
    ensures SetAttr(attributes, key, value).Err? ==> SetAttr(attributes, key, value).error == KeyNotFound(key)
    ensures SetAttr(attributes, key, value).Ok? ==>
              var updated := SetAttr(attributes, key, value).value;
              && updated.Keys == attributes.value.Keys
              && updated[key] == value
              && forall k :: k in updated && k != key ==> updated[k] == attributes.value[k]
  {
  }

  /** Setting the same key to the same value twice is the same as once. */
  lemma SetAttrIdempotent(attributes: map<string, Param>, key: string, value: Param)
    ensures var once := SetAttr(Some(attributes), key, value);
      once.Ok? ==> SetAttr(Some(once.value), key, value) == once
  {
    if key in attributes {
      assert attributes[key := value][key := value] == attributes[key := value];
    }
  }

  class ThreadSafeWrapper {
    const lock: Lock
    var attributes: Option<map<string, Param>>

    /** The base constructor creates the lock; `declared` stands for the
        dictionary a derived class's constructor assigns afterwards, or
        None when it assigns none. */
    constructor (declared: Option<map<string, Param>>)
      ensures fresh(lock)
      ensures attributes == declared
    {
      lock := new Lock();
      attributes := declared;
    }

    /** _with_lock: the wrapped call runs alone and its result is returned
        unchanged. */
    method WithLock<R>(f: () -> R) returns (r: R)
      ensures r == f()
    {
      r := f();
    }

    /** set_dependant_attr(key, value). */
    method SetDependantAttr(key: string, value: Param) returns (r: Result<()>)
      modifies this
      ensures var s := SetAttr(old(attributes), key, value);
        && (s.Ok? ==> r == Ok(()) && attributes == Some(s.value))
        && (s.Err? ==> r == Err(s.error) && attributes == old(attributes))
    {
      if attributes.Some? && key in attributes.value {
        attributes := Some(attributes.value[key := value]);
        r := Ok(());
      } else {
        r := Err(KeyNotFound(key));
      }
    }
  }
}
