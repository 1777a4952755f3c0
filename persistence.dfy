/**
 * Persistent objects. One class stands for a `persistent.Persistent`
 * subclass that also mixes in `MongoContained`: it carries its document
 * reference (`_p_oid`), its attributes, its serial (`_p_serial`), its dirty
 * flag (`_p_changed`), and the memoized `__name__` / `__parent__` of a
 * contained object (`_v_name` / `_v_parent`).
 */
module Persistence {
  import opened Documents

  /**
   * How a contained object resolves `__name__` or `__parent__` when nothing
   * is memoized yet: an attribute to read (`_m_name_attr`), else a getter
   * (`_m_name_getter`); a setter (`_m_name_setter`) is called on assignment.
   * Getter and setter are the object's own methods, modelled as functions of
   * its attributes.
   */
  datatype Resolver = Resolver(
    attr: Option<string>,
    getter: Option<Fields -> Value>,
    setter: Option<(Fields, Value) -> Fields>)

  /** `getattr(obj, name, None)` */
  function Attr(attrs: Fields, name: string): Value
  {
    if name in attrs then attrs[name] else Null
  }

  /**
   * What the property getter returns: the memoized value if there is one,
   * else the attribute when an attribute is configured, else the getter's
   * result, else None.
   */
  function Resolve(res: Resolver, cached: Value, attrs: Fields): Value
  {
    if cached != Null then cached
    else if res.attr.Some? then Attr(attrs, res.attr.value)
    else if res.getter.Some? then res.getter.value(attrs)
    else Null
  }

  /**
   * Resolution is memoized: once it produced a value, resolving again gives
   * that value whatever the attributes have become since.
   */
  lemma ResolveMemoized(res: Resolver, cached: Value, attrs: Fields, later: Fields)
    requires Resolve(res, cached, attrs) != Null
    ensures Resolve(res, Resolve(res, cached, attrs), later) == Resolve(res, cached, attrs)
  {
  }

  /** The attribute strategy takes precedence over the getter. */
  lemma AttrBeforeGetter(res: Resolver, attrs: Fields)
    requires res.attr.Some?
    ensures Resolve(res, Null, attrs) == Attr(attrs, res.attr.value)
  {
  }

  /**
   * The class-level configuration of a persistent class: how its objects
   * resolve `__name__` and `__parent__`.
   */
  datatype Kind = Kind(nameResolver: Resolver, parentResolver: Resolver)

  /** The attributes after assigning `v` through a property: the setter's effect, if there is a setter. */
  function Assign(res: Resolver, attrs: Fields, v: Value): (r: Fields)
    ensures res.setter.None? ==> r == attrs
  {
    if res.setter.Some? then res.setter.value(attrs, v) else attrs
  }

  class Persistent {
    /** The collection the writer stores objects of this class in. */
    const database: string
    const collection: string

    var oid: Option<DocRef>
    var attrs: Fields
    var serial: nat
    var changed: bool

    const nameResolver: Resolver
    const parentResolver: Resolver
    var vName: Value
    var vParent: Value

    /** A new, not yet stored object. */
    constructor (database: string, collection: string, attrs: Fields,
                 nameResolver: Resolver, parentResolver: Resolver)
      ensures this.database == database && this.collection == collection
      ensures oid == None && this.attrs == attrs && serial == 0 && !changed
      ensures this.nameResolver == nameResolver && this.parentResolver == parentResolver
      ensures vName == Null && vParent == Null
    {
      this.database := database;
      this.collection := collection;
      this.attrs := attrs;
      this.nameResolver := nameResolver;
      this.parentResolver := parentResolver;
      oid := None;
      serial := 0;
      changed := false;
      vName := Null;
      vParent := Null;
    }

    /**
     * A ghost for a stored document, as the reader creates it before loading
     * its state: an object of the class `kind` describes.
     */
    constructor Ghost(ref: DocRef, kind: Kind)
      ensures database == ref.database && collection == ref.collection
      ensures oid == Some(ref) && attrs == map[] && serial == 0 && !changed
      ensures nameResolver == kind.nameResolver && parentResolver == kind.parentResolver
      ensures vName == Null && vParent == Null
    {
      database := ref.database;
      collection := ref.collection;
      attrs := map[];
      nameResolver := kind.nameResolver;
      parentResolver := kind.parentResolver;
      oid := Some(ref);
      serial := 0;
      changed := false;
      vName := Null;
      vParent := Null;
    }

    /** The `__name__` getter: resolve, memoize, return. */
    method GetName() returns (v: Value)
      modifies this`vName
      ensures v == Resolve(nameResolver, old(vName), attrs)
      ensures vName == v
    {
      if vName == Null {
        if nameResolver.attr.Some? {
          vName := Attr(attrs, nameResolver.attr.value);
        } else if nameResolver.getter.Some? {
          vName := nameResolver.getter.value(attrs);
        }
      }
      v := vName;
    }

    /** The `__name__` setter: call the configured setter, then memoize. */
    method SetName(v: Value)
      modifies this`vName, this`attrs
      ensures vName == v
      ensures attrs == Assign(nameResolver, old(attrs), v)
    {
      if nameResolver.setter.Some? {
        attrs := nameResolver.setter.value(attrs, v);
      }
      vName := v;
    }

    /** The `__parent__` getter. */
    method GetParent() returns (v: Value)
      modifies this`vParent
      ensures v == Resolve(parentResolver, old(vParent), attrs)
      ensures vParent == v
    {
      if vParent == Null {
        if parentResolver.attr.Some? {
          vParent := Attr(attrs, parentResolver.attr.value);
        } else if parentResolver.getter.Some? {
          vParent := parentResolver.getter.value(attrs);
        }
      }
      v := vParent;
    }

    /** The `__parent__` setter. */
    method SetParent(v: Value)
      modifies this`vParent, this`attrs
      ensures vParent == v
      ensures attrs == Assign(parentResolver, old(attrs), v)
    {
      if parentResolver.setter.Some? {
        attrs := parentResolver.setter.value(attrs, v);
      }
      vParent := v;
    }
  }
}
