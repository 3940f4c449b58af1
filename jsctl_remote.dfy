/** The two places where jaseci_core/jaseci/jsctl/jsctl.py talks to a remote
    server: the endpoint `remote_api_call` posts an API call to
    (jsctl.py:47-52), and the base URL `login` keeps (jsctl.py:161-163).
    The HTTP requests themselves are not part of this model. */
module ApiRemote {
  import opened Wrappers
  import opened Strings
  import opened ApiTree

  /** The endpoint path of an API method: `/jac/` for `api_` methods and
      `/admin/` for `admin_api_` ones, followed by the rest of the name.
      For any other name `path` is never assigned and using it raises
      `UnboundLocalError`. */
  function RemotePath(apiName: string): Result<string, CliError>
  {
    if StartsWith(apiName, "api_") then Ok("/jac/" + apiName[4..])
    else if StartsWith(apiName, "admin_api_") then Ok("/admin/" + apiName[10..])
    else Err(UnboundLocalError)
  }

  /** The method name an endpoint path belongs to. */
  function NameOfPath(path: string): Option<string>
  {
    if StartsWith(path, "/jac/") then Some("api_" + path[5..])
    else if StartsWith(path, "/admin/") then Some("admin_api_" + path[7..])
    else None
  }

  /** Exactly the names that enter the command tree have an endpoint, and
      the endpoint ends in the same text that the tree splits into groups. */
  lemma RemotePathOfApi(apiName: string)
    ensures RemotePath(apiName).Ok? <==> IsApiName(apiName)
    ensures IsApiName(apiName) ==>
      RemotePath(apiName) == Ok((if StartsWith(apiName, "api_") then "/jac/" else "/admin/") + Join(GroupPath(apiName), '_'))
  {
    if IsApiName(apiName) {
      GroupPathSpellsName(apiName);
      var f := FuncStr(apiName);
      if StartsWith(apiName, "api_") {
        assert apiName[4..] == f;
      } else {
        assert apiName[10..] == f;
      }
    }
  }

  /** The endpoint names its method back. */
  lemma NameOfRemotePath(apiName: string)
    requires RemotePath(apiName).Ok?
    ensures NameOfPath(RemotePath(apiName).value) == Some(apiName)
  {
    var p := RemotePath(apiName).value;
    if StartsWith(apiName, "api_") {
      assert p[..5] == "/jac/" && p[5..] == apiName[4..];
      assert apiName == "api_" + apiName[4..];
    } else {
      assert p[..5] != "/jac/" by {
        assert p[1] == 'a';
      }
      assert p[..7] == "/admin/" && p[7..] == apiName[10..];
      assert apiName == "admin_api_" + apiName[10..];
    }
  }

  /** Every endpoint path under `/jac/` or `/admin/` is the endpoint of
      the method it names. */
  lemma RemotePathOfName(path: string)
    requires NameOfPath(path).Some?
    ensures RemotePath(NameOfPath(path).value) == Ok(path)
  {
    var n := NameOfPath(path).value;
    if StartsWith(path, "/jac/") {
      assert n[..4] == "api_" && n[4..] == path[5..];
      assert path == "/jac/" + path[5..];
    } else {
      assert n[..4] != "api_" by {
        assert n[1] == 'd';
      }
      assert n[..10] == "admin_api_" && n[10..] == path[7..];
      assert path == "/admin/" + path[7..];
    }
  }

  /** Different methods never share an endpoint. */
  lemma RemotePathInjective(a: string, b: string)
    requires RemotePath(a).Ok? && RemotePath(a) == RemotePath(b)
    ensures a == b
  {
    NameOfRemotePath(a);
    NameOfRemotePath(b);
  }

  /** `url[:-1] if url[-1] == '/' else url`: one trailing slash goes;
      `url[-1]` of the empty string raises `IndexError`. */
  function StripSlash(url: string): Result<string, CliError>
  {
    if url == [] then Err(IndexError)
    else if url[|url| - 1] == '/' then Ok(url[..|url| - 1])
    else Ok(url)
  }

  /** The kept URL is the given one less at most one final slash. */
  lemma StripSlashParts(url: string)
    ensures StripSlash(url).Err? <==> url == []
    ensures StripSlash(url).Ok? ==>
      var r := StripSlash(url).value;
      (url == r + "/" || (url == r && url[|url| - 1] != '/'))
  {
    if url != [] && url[|url| - 1] == '/' {
      assert url == url[..|url| - 1] + "/";
    }
  }

  /** A URL given with or without one trailing slash is kept the same. */
  lemma StripSlashAgrees(u: string)
    requires u != [] && u[|u| - 1] != '/'
    ensures StripSlash(u) == Ok(u)
    ensures StripSlash(u + "/") == Ok(u)
  {
    assert (u + "/")[..|u + "/"| - 1] == u;
  }

  /** The endpoint `login` requests its token from. */
  function TokenUrl(url: string): Result<string, CliError>
  {
    match StripSlash(url)
    case Err(e) => Err(e)
    case Ok(base) => Ok(base + "/user/token/")
  }

  /** A trailing slash on the server URL does not double the slash before
      `user`. */
  lemma TokenUrlAgrees(u: string)
    requires u != [] && u[|u| - 1] != '/'
    ensures TokenUrl(u + "/") == TokenUrl(u) == Ok(u + "/user/token/")
  {
    StripSlashAgrees(u);
  }
}
