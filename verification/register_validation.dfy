/** The older API's registration check: every field of the request must be non-empty. */
module RegisterValidation {
  import opened Wrappers
  import opened Errors

  datatype RegisterUserRequest = RegisterUserRequest(firstName: string, lastName: string, email: string, password: string)

  /** The fields in declaration order, each with its `json` tag. */
  function TaggedFields(r: RegisterUserRequest): (fs: seq<(string, string)>)
    ensures |fs| == 4
  {
    [("firstName", r.firstName), ("lastName", r.lastName), ("email", r.email), ("password", r.password)]
  }

  /**
   * `ValidateRegisterUserRequest`: nil when no field is empty; otherwise
   * "<json tag> is required" naming the first empty field in declaration order.
   */
  method ValidateRegisterUserRequest(r: RegisterUserRequest) returns (err: Option<Err>)
    ensures err.None? <==> r.firstName != "" && r.lastName != "" && r.email != "" && r.password != ""
    ensures r.firstName == "" ==> err == Some(Plain("firstName is required"))
    ensures r.firstName != "" && r.lastName == "" ==> err == Some(Plain("lastName is required"))
    ensures r.firstName != "" && r.lastName != "" && r.email == "" ==> err == Some(Plain("email is required"))
    ensures r.firstName != "" && r.lastName != "" && r.email != "" && r.password == "" ==>
      err == Some(Plain("password is required"))
  {
    var fs := TaggedFields(r);
    assert fs[0] == ("firstName", r.firstName) && fs[1] == ("lastName", r.lastName);
    assert fs[2] == ("email", r.email) && fs[3] == ("password", r.password);
    var i := 0;
    while i < |fs|
      invariant 0 <= i <= |fs|
      invariant forall j :: 0 <= j < i ==> fs[j].1 != ""
    {
      if fs[i].1 == "" {
        assert "firstName" + " is required" == "firstName is required";
        assert "lastName" + " is required" == "lastName is required";
        assert "email" + " is required" == "email is required";
        assert "password" + " is required" == "password is required";
        return Some(Plain(fs[i].0 + " is required"));
      }
      i := i + 1;
    }
    assert fs[0].1 != "" && fs[1].1 != "" && fs[2].1 != "" && fs[3].1 != "";
    return None;
  }
}
