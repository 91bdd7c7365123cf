/** `BiometricTemplate`: a template tagged with its identity label and role produced by the
    engine, as an object with value fields and move operations. */
module BiometricTemplates {
  import opened Irpv

  /** The value a `BiometricTemplate` holds; the harness's template vectors
      hold these. */
  datatype Template = Template(identity: nat, role: TemplateRole, data: Bytes)

  class BiometricTemplate {
    var identity: nat
    var role: TemplateRole
    var data: Bytes

    function Value(): Template
      reads this
    {
      Template(identity, role, data)
    }

    /** The default constructor: empty data, identity and role indeterminate. */
    constructor Empty()
      ensures data == []
    {
      data := [];
    }

    /** Builds a template from a identity, a role and the data moved in. */
    constructor (identity: nat, role: TemplateRole, data: Bytes)
      ensures Value() == Template(identity, role, data)
    {
      this.identity := identity;
      this.role := role;
      this.data := data;
    }

    /** The move constructor: copies identity and role and takes `other`'s
        data, leaving `other` with empty data. */
    constructor Moved(other: BiometricTemplate)
      modifies other
      ensures Value() == old(other.Value())
      ensures other.identity == old(other.identity) && other.role == old(other.role) && other.data == []
    {
      identity := other.identity;
      role := other.role;
      data := other.data;
      new;
      other.data := [];
    }

    /** Move assignment: unless `other` is this very object, copy identity and
        role and take `other`'s data, leaving `other` with empty data.
        Self-assignment changes nothing. */
    method MoveAssign(other: BiometricTemplate)
      modifies this, other
      ensures this != other ==> Value() == old(other.Value())
      ensures this != other ==>
        other.identity == old(other.identity) && other.role == old(other.role) && other.data == []
      ensures this == other ==> Value() == old(Value())
    {
      if this != other {
        identity := other.identity;
        role := other.role;
        data := other.data;
        other.data := [];
      }
    }
  }
}
