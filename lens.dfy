/** The `Lens` of the store library: a getter and a curried copy-on-write
    setter, composed with `+`. */
module Lenses {

  /** `DefaultLens(get, set)`: `setter(a)(s)` is `s` with its part replaced by `a`. */
  datatype Lens<!S, !A> = Lens(getter: S -> A, setter: A -> S -> S)

  /** `invoke(s)`: read the part. */
  function Get<S, A>(l: Lens<S, A>, s: S): A
  {
    l.getter(s)
  }

  /** `invoke(s, a)`: write the part. */
  function Set<S, A>(l: Lens<S, A>, s: S, a: A): S
  {
    l.setter(a)(s)
  }

  /** `invoke(s, f)`: write back the transformed part. */
  function Modify<S(!new), A(!new)>(l: Lens<S, A>, s: S, f: A -> A): (r: S)
    ensures GetSetLaw(l) ==> Get(l, r) == f(Get(l, s))
    ensures SetGetLaw(l) && f(Get(l, s)) == Get(l, s) ==> r == s
  {
    Set(l, s, f(Get(l, s)))
  }

  /** `this + other`: focus through `outer`, then through `inner`. */
  function Plus<S, A, V>(outer: Lens<S, A>, inner: Lens<A, V>): Lens<S, V>
  {
    Lens(s => Get(inner, Get(outer, s)),
         v => s => Set(outer, s, Set(inner, Get(outer, s), v)))
  }

  /** `Lens<S>()`: the whole structure as its own part. */
  function Identity<S>(): Lens<S, S>
  {
    Lens(s => s, a => _ => a)
  }

  /** The first lens law: reading back what was written. */
  ghost predicate GetSetLaw<S(!new), A(!new)>(l: Lens<S, A>)
  {
    forall s, a :: Get(l, Set(l, s, a)) == a
  }

  /** The second lens law: writing back what was read changes nothing. */
  ghost predicate SetGetLaw<S(!new), A(!new)>(l: Lens<S, A>)
  {
    forall s :: Set(l, s, Get(l, s)) == s
  }

  /** A later write wins over an earlier one. */
  ghost predicate SetSetLaw<S(!new), A(!new)>(l: Lens<S, A>)
  {
    forall s, a, b :: Set(l, Set(l, s, a), b) == Set(l, s, b)
  }

  /** Two lenses that read and write alike on every input. */
  ghost predicate Equivalent<S(!new), A(!new)>(l: Lens<S, A>, m: Lens<S, A>)
  {
    && (forall s :: Get(l, s) == Get(m, s))
    && (forall s, a :: Set(l, s, a) == Set(m, s, a))
  }

  lemma PlusGetSet<S, A, V>(outer: Lens<S, A>, inner: Lens<A, V>, s: S, v: V)
    ensures Get(Plus(outer, inner), s) == Get(inner, Get(outer, s))
    ensures Set(Plus(outer, inner), s, v) == Set(outer, s, Set(inner, Get(outer, s), v))
  {
  }

  lemma {:induction false} PlusKeepsGetSetLaw<S(!new), A(!new), V(!new)>(outer: Lens<S, A>, inner: Lens<A, V>)
    requires GetSetLaw(outer) && GetSetLaw(inner)
    ensures GetSetLaw(Plus(outer, inner))
  {
    forall s, v ensures Get(Plus(outer, inner), Set(Plus(outer, inner), s, v)) == v {
      var a := Set(inner, Get(outer, s), v);
      calc {
        Get(Plus(outer, inner), Set(Plus(outer, inner), s, v));
        Get(inner, Get(outer, Set(outer, s, a)));
        { assert Get(outer, Set(outer, s, a)) == a; }
        Get(inner, a);
        v;
      }
    }
  }

  lemma {:induction false} PlusKeepsSetGetLaw<S(!new), A(!new), V(!new)>(outer: Lens<S, A>, inner: Lens<A, V>)
    requires SetGetLaw(outer) && SetGetLaw(inner)
    ensures SetGetLaw(Plus(outer, inner))
  {
    forall s ensures Set(Plus(outer, inner), s, Get(Plus(outer, inner), s)) == s {
      var a := Get(outer, s);
      calc {
        Set(Plus(outer, inner), s, Get(Plus(outer, inner), s));
        Set(outer, s, Set(inner, a, Get(inner, a)));
        { assert Set(inner, a, Get(inner, a)) == a; }
        Set(outer, s, a);
        s;
      }
    }
  }

  lemma {:induction false} PlusKeepsSetSetLaw<S(!new), A(!new), V(!new)>(outer: Lens<S, A>, inner: Lens<A, V>)
    requires GetSetLaw(outer) && SetSetLaw(outer) && SetSetLaw(inner)
    ensures SetSetLaw(Plus(outer, inner))
  {
    forall s, v, w ensures Set(Plus(outer, inner), Set(Plus(outer, inner), s, v), w) == Set(Plus(outer, inner), s, w) {
      var a := Set(inner, Get(outer, s), v);
      var s1 := Set(outer, s, a);
      calc {
        Set(Plus(outer, inner), s1, w);
        Set(outer, s1, Set(inner, Get(outer, s1), w));
        { assert Get(outer, s1) == a; }
        Set(outer, s1, Set(inner, a, w));
        { assert Set(inner, a, w) == Set(inner, Get(outer, s), w); }
        Set(outer, s, Set(inner, Get(outer, s), w));
      }
    }
  }

  lemma IdentityLaws<S(!new)>()
    ensures GetSetLaw(Identity<S>()) && SetGetLaw(Identity<S>()) && SetSetLaw(Identity<S>())
  {
  }

  lemma {:induction false} IdentityIsUnit<S(!new), A(!new)>(l: Lens<S, A>)
    ensures Equivalent(Plus(Identity<S>(), l), l)
    ensures Equivalent(Plus(l, Identity<A>()), l)
  {
    forall s, a ensures Set(Plus(Identity<S>(), l), s, a) == Set(l, s, a)
                && Set(Plus(l, Identity<A>()), s, a) == Set(l, s, a) {
      PlusGetSet(Identity<S>(), l, s, a);
      PlusGetSet(l, Identity<A>(), s, a);
    }
  }

  lemma {:induction false} PlusIsAssociative<S(!new), A(!new), B(!new), C(!new)>(x: Lens<S, A>, y: Lens<A, B>, z: Lens<B, C>)
    ensures Equivalent(Plus(Plus(x, y), z), Plus(x, Plus(y, z)))
  {
    forall s ensures Get(Plus(Plus(x, y), z), s) == Get(Plus(x, Plus(y, z)), s) {
      PlusGetSet(x, y, s, Get(y, Get(x, s)));
    }
    forall s, c ensures Set(Plus(Plus(x, y), z), s, c) == Set(Plus(x, Plus(y, z)), s, c) {
      var a := Get(x, s);
      var b := Get(y, a);
      calc {
        Set(Plus(Plus(x, y), z), s, c);
        Set(Plus(x, y), s, Set(z, Get(Plus(x, y), s), c));
        Set(Plus(x, y), s, Set(z, b, c));
        Set(x, s, Set(y, a, Set(z, b, c)));
        Set(x, s, Set(Plus(y, z), a, c));
        Set(Plus(x, Plus(y, z)), s, c);
      }
    }
  }

  // The nested-record example the library's lens test uses.

  datatype Street = Street(number: int, name: string)
  datatype Address = Address(city: string, street: Street)
  datatype Company = Company(name: string, address: Address)
  datatype Employee = Employee(name: string, company: Company)

  function EmployeeCompany(): Lens<Employee, Company>
  {
    Lens((e: Employee) => e.company, (c: Company) => (e: Employee) => e.(company := c))
  }

  function CompanyAddress(): Lens<Company, Address>
  {
    Lens((c: Company) => c.address, (a: Address) => (c: Company) => c.(address := a))
  }

  function AddressStreet(): Lens<Address, Street>
  {
    Lens((a: Address) => a.street, (st: Street) => (a: Address) => a.(street := st))
  }

  function StreetName(): Lens<Street, string>
  {
    Lens((st: Street) => st.name, (n: string) => (st: Street) => st.(name := n))
  }

  function EmployeeStreetName(): Lens<Employee, string>
  {
    Plus(Plus(Plus(EmployeeCompany(), CompanyAddress()), AddressStreet()), StreetName())
  }

  /** Modifying through the four composed lenses rewrites the street name
      and nothing else. */
  lemma {:induction false} NestedModifyTouchesOnlyTarget(e: Employee, f: string -> string)
    ensures Modify(EmployeeStreetName(), e, f)
         == e.(company := e.company.(address := e.company.address.(street := e.company.address.street.(name := f(e.company.address.street.name)))))
  {
    var ec := EmployeeCompany();
    var ca := CompanyAddress();
    var ast := AddressStreet();
    var sn := StreetName();
    var l2 := Plus(ec, ca);
    var l3 := Plus(l2, ast);
    var n := f(e.company.address.street.name);
    assert Get(EmployeeStreetName(), e) == e.company.address.street.name;
    var st := e.company.address.street.(name := n);
    var ad := e.company.address.(street := st);
    var co := e.company.(address := ad);
    calc {
      Set(EmployeeStreetName(), e, n);
      Set(l3, e, Set(sn, Get(l3, e), n));
      Set(l3, e, st);
      Set(l2, e, Set(ast, Get(l2, e), st));
      Set(l2, e, ad);
      Set(ec, e, Set(ca, Get(ec, e), ad));
      Set(ec, e, co);
      e.(company := co);
    }
  }
}
